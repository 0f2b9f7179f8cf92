# AgentBond: a verified model

This project models the four state machines at the heart of AgentBond and proves what they promise over all their
runs. Everything is Dafny 4.11; `dafny verify dfyconfig.toml` checks the whole project.

**The on-chain escrow and bond protocol** (`Escrow*.dfy`, `Sums.dfy`). Any number of jobs, provider bonds and wallets
share one token ledger and one clock. `EscrowProgram.Program` is the program as it works: each processor loads
accounts, moves tokens, closes and saves accounts step by step, may fail late, and `Execute` rolls a failed
transaction back. Each is proved equal to an atomic transition in `EscrowSpec`. `EscrowInvariant` gives the inductive
invariant, `EscrowTheorems` the results over whole runs, with outside events (clock, gifts into escrows and vaults,
transfers between users, opening and closing of token accounts, lamports sent anywhere, tokens issued by a mint
authority or burned by a holder) interleaved anywhere. `EscrowLaws` and `EscrowBondLaws` say who may do what and when,
and what it does, from the states before and after a step alone. Payouts are counted per job incarnation, because buyer and
provider may be one key and an address can be used again after a close; `CountersAreReal` ties the counters to the
ledger account by account.

**The fork-safe indexer** (`Indexer*.dfy`, `Ancestry.dfy`, `Paging.dfy`). Tables are maps under the keys of the SQL
schema. `IndexerRepo.ProjectionRepo` updates them as the repository code does and is proved against the functions of
`IndexerModel`. The results: fork safety, equality of the public tables with "the last finalized version wins",
idempotent replay, recovery from crashes inside an update, gap coverage, complete pagination. `IndexerLaws` says what
the tables hold through the stream itself, `IndexerReadLaws` what a page returns through the rows.

**The x402 settlement leases** (`Settlement*.dfy`). Any number of workers execute one statement at a time against the
PostgreSQL or the in-process store, with crashes between any two statements, lost acknowledgements, lease expiry and
stale recovery. `SettlementLaws` says what a request is answered through what happened to its digest before, in seconds.
`SettlementStores` has both stores as classes, and the request handler under arbitrary interference
of other workers.

**The invoke-stack log decoder** (`Log*.dfy`, `Text.dfy`). From raw log text to attributed events: the decoder
inverts the rendering of every well-nested call tree and recovers after garbage; `LogNoise` and `LogLoud` say exactly
what it returns when lines only look like frames; `LogLaws` says which line each event comes from.

Supporting pieces: execution keys (`ExecutionKeys.dfy`), receipts (`Receipts.dfy`, `Bytes.dfy`) and the Ed25519
instruction layout (`Ed25519Layout.dfy`).

## Where the code falls short of a natural expectation

Each point but the last has an input that shows it and the exact condition under which the code does meet the
expectation.

- A tombstone leaves no row behind, so finalizing an older slot after it brings the account back
  (`OutOfOrderRevives`, on a stream of four updates). A version that arrives after its slot was finalized is applied
  without regard to write versions. One update keeps a public cell right if and only if it does neither
  (`FinalizeAgreesIff`, `LateAgreesIff`, `AgreesIff`), and over any stream a cell is right at every point if and only
  if every update does so (`AlwaysRightIff`).
- The engine marks a slot finalized before it asks for finalization, which then skips the ancestry check
  (`EngineSkipsAncestry`; `EngineFinalizesOverDeadParent` reaches a finalized slot over a dead parent by three
  updates). At every point each finalized slot has a chain of finalized slots to a root if and only if no update of
  the stream finalizes a slot before its parent (`EngineKeepsParentsIff`, `EngineKeepsAncestryIff`).
- A message, return, data or other labelled line whose text starts with "invoke", "success" or "failed" reads as the
  start or the end of an invocation (`MessageExample`, `DataExample`); a start and an end can cancel (`PairExample`).
  For every log of a call tree, `LogNoise.Output` says from the tree what is returned (`NoisyExtraction`); nothing is
  ever attributed wrongly (`NeverWrong`); and the log is decoded right if and only if every decodable data line of the
  program is quiet and stands at a place where the decoder is in step (`ExactIffAllHeard`).
- The in-process settlement store forgets settled results: for their age after two minutes, and at once when the map
  is full (`ForgetsWhenOld`, `ForgetsWhenFull`). A settled entry survives a step if and only if the step does not
  evict it (`SettledSurvivesIff`), and a read can lose it if and only if it is too old or a victim on a full map
  (`LosableIff`). While no settled entry of a digest is at risk all its responses agree (`MemoryResponsesAgree`); once
  one is at risk the digest can be answered with anything (`RiskBreaksAgreement`).
- Accounts are created with a plain create-account call, which is refused at an address that holds lamports. Such an
  address stays closed for good (`PrefundedStaysClosed`), and a submitted job can be challenged if and only if its
  challenge address is free of them and the deadline fits 64 bits (`ChallengeableIff`).
- The transition table allows Challenged to Refunded, but no instruction takes that step (`JobStep`).

## Model

| member | source | states |
|---|---|---|
| EscrowProgram.Program.Execute | programs/agentbond/src/processor/mod.rs:23-62 | one transaction of the step-by-step program is the atomic transition, or nothing at all when refused |
| EscrowProgram.Program.ResolveTimeoutSettle | programs/agentbond/src/processor/resolve.rs:25-132 | closes the challenge before its later checks, yet succeeds exactly under the atomic guard and then has exactly its effect |
| EscrowProgram.Program.RefundInternal | programs/agentbond/src/processor/resolve.rs:142-224 | pays the buyer before it looks at the bond; succeeds exactly when funded or accepted and overdue with a releasable share |
| EscrowProgram.Program.ExpireUnfunded | programs/agentbond/src/processor/resolve.rs:226-250 | expires an unfunded job from its funding deadline on |
| EscrowProgram.Program.SlashBond | programs/agentbond/src/processor/resolve.rs:252-356 | principal, surplus and exactly the job's share to the buyer, both bond totals lowered, challenge gone; only the admin, only before the challenge deadline |
| EscrowProgram.Program.CloseJob | programs/agentbond/src/processor/resolve.rs:358-405 | a terminal job is removed by its buyer; a named existing escrow must be this job's and empty |
| EscrowProgram.Program.TransitionJob | programs/agentbond/src/processor/helpers.rs:191-198 | moves a job along the transition table or leaves it |
| EscrowProgram.Program.UnlockJobBond | programs/agentbond/src/processor/helpers.rs:200-216 | gives back exactly the job's share, refused if the bond does not hold it |
| EscrowProgram.Program.RefundPrincipalToBuyer | programs/agentbond/src/processor/helpers.rs:223-260 | principal and surplus leave the escrow for the buyer's account |
| EscrowProgram.Program.TransferChecked | programs/agentbond/src/token.rs:117-144 | a transfer within one mint, all or nothing, no overflow at the recipient |
| EscrowProgram.Program.ReturnSurplusToBuyer | programs/agentbond/src/token.rs:164-192 | what exceeds the principal goes to the buyer |
| EscrowProgram.Program.CreateJob | programs/agentbond/src/processor/create_job.rs:21-115 | strictly ordered future deadlines, positive amount, registered provider, unused address without lamports |
| EscrowProgram.Program.FundJob | programs/agentbond/src/processor/fund_job.rs:18-86 | exactly the principal moves into an empty escrow before the funding deadline |
| EscrowProgram.Program.AcceptJob | programs/agentbond/src/processor/accept_job.rs:15-84 | locks one minimum bond on the job and in the bond's total, within what is deposited |
| EscrowProgram.Program.SubmitReceipt | programs/agentbond/src/processor/submit_receipt.rs:17-95 | stores a receipt that names this job, chain and request, signed by an execution key, in time |
| EscrowProgram.Program.AcceptWork | programs/agentbond/src/processor/accept_work.rs:18-98 | the buyer settles a submitted job: surplus back, principal to the provider, share released |
| EscrowProgram.Program.ChallengeWork | programs/agentbond/src/processor/challenge_work.rs:21-98 | opens the one challenge of a submitted job with a deadline that fits 64 bits |
| EscrowProgram.Program.DepositBond | programs/agentbond/src/processor/deposit_bond.rs:26-142 | creates or extends a bond by exactly the tokens moved into its vault |
| EscrowProgram.Program.WithdrawBond | programs/agentbond/src/processor/withdraw_bond.rs:16-82 | takes out at most what is not locked |
| EscrowProgram.Program.Configure | programs/agentbond/src/processor/initialize_config.rs:18-79 | configuration with positive minimum bond and challenge duration, once; pausing, registration and execution keys |
| EscrowInvariant.StepKeepsInv | programs/agentbond/src/processor/resolve.rs:25-405 | every instruction and outside event keeps the invariant: escrow balances, bond books, sums of locks, challenges, supply |
| EscrowInvariant.MoveConserves | programs/agentbond/src/token.rs:117-144 | a transfer conserves the supply of every mint |
| EscrowInvariant.StepConserves | programs/agentbond/src/token.rs:117-192 | every step changes what accounts hold exactly as it changes the recorded supply; every instruction of the program changes neither |
| EscrowInvariant.LocksUpdate | programs/agentbond/src/processor/accept_job.rs:59-75 | rewriting one job moves the lock sum of its own bond by the difference, no other |
| EscrowTheorems.ReachableInv | programs/agentbond/src/processor/mod.rs:23-62 | the invariant holds in every state any run reaches |
| EscrowTheorems.BondAccounting | programs/agentbond/src/processor/helpers.rs:200-216 | in every reachable state `locked` is the sum of the shares of the bond's accepted, submitted and challenged jobs, all others hold zero, locked <= deposited <= vault |
| EscrowTheorems.BondLedger | programs/agentbond/src/processor/deposit_bond.rs:118-133 | `deposited` is deposits minus withdrawals minus slashes, and the rest of the vault is exactly the gifts |
| EscrowTheorems.GiftsNeverShrink | programs/agentbond/src/processor/withdraw_bond.rs:41-73 | what a vault holds above `deposited` never shrinks: no run takes a gift out of it |
| EscrowTheorems.SlashIsLocal | programs/agentbond/src/processor/resolve.rs:312-346 | a slash leaves every provider's unlocked amount and every other job's lock unchanged |
| EscrowTheorems.TokensConserved | programs/agentbond/src/token.rs:117-192 | over any run the tokens held change exactly as the recorded supply of their mint, and not at all unless its authority issues or a holder destroys some |
| EscrowTheorems.JobStep | crates/agentbond-types/src/state.rs:49-77 | any step keeps a job's terms and moves it along the table, never Challenged to Refunded; only a close by the buyer removes it, only when terminal; a terminal job is frozen |
| EscrowTheorems.TerminalIsFinal | crates/agentbond-types/src/state.rs:37-47 | over any run within one incarnation a terminal job and its payouts never change |
| EscrowTheorems.TermsAreFixed | programs/agentbond/src/processor/create_job.rs:21-115 | amount, mint, deadlines and request hash never change within an incarnation |
| EscrowTheorems.ConfigIsFixed | programs/agentbond/src/processor/initialize_config.rs:18-79 | over any run a written configuration changes in nothing but its pause flag |
| EscrowTheorems.PrincipalPaidOnce | programs/agentbond/src/processor/resolve.rs:97-123 | the escrow covers the principal in all live states; it leaves exactly once, to the provider if Settled, to the buyer if Refunded or Slashed; all else is still there or went to the buyer |
| EscrowTheorems.CountersAreReal | programs/agentbond/src/processor/accept_work.rs:63-89 | every payout changes exactly the provider's, buyer's, escrow and vault balances by the counted amounts, and no other account |
| EscrowTheorems.PayoutEmptiesEscrow | programs/agentbond/src/processor/helpers.rs:246-259 | whatever ends a live job leaves its escrow empty |
| EscrowTheorems.ChallengeExactlyWhileChallenged | programs/agentbond/src/processor/challenge_work.rs:42-89 | an open challenge with the job's buyer exists exactly while the job is Challenged |
| EscrowTheorems.ChallengeableIff | programs/agentbond/src/processor/challenge_work.rs:42-89 | so before its auto-settle deadline a submitted job, re-created or not, can be challenged if and only if the deadline fits 64 bits and the challenge address holds no lamports |
| EscrowTheorems.PrefundedStaysClosed | programs/agentbond/src/accounts.rs:89-109 | over any run no account is ever created at an address that holds lamports without one |
| EscrowTheorems.PlanSucceeds | host/crates/agentbond-app/src/services.rs:357-420 | in reachable states the planned instruction succeeds and ends the job, paused or not |
| EscrowTheorems.PlanExact | host/crates/agentbond-app/src/services.rs:357-420 | a plan exists exactly when the job is overdue; without one every permissionless resolution would fail |
| EscrowTheorems.NothingBeforeDue | programs/agentbond/src/processor/resolve.rs:45-72 | no permissionless resolution succeeds early |
| EscrowTheorems.NoStuckFunds | programs/agentbond/src/processor/resolve.rs:163-208 | from a time fixed at creation on, whatever anyone does, every live job can be ended by a permissionless instruction |
| EscrowLaws.JobMovesLawfully | programs/agentbond/src/processor/accept_work.rs:35-37 | whatever is attempted, a job changes only by a signed and timely move with exactly its effect on the job: settled early by its buyer alone, slashed by the admin alone within the window, submitted only under a registered key and a receipt for this job, challenged with a window of the configured length |
| EscrowLaws.JobAppears | programs/agentbond/src/processor/create_job.rs:21-115 | a job appears only by a creation with ordered future deadlines and is exactly what was asked for |
| EscrowLaws.BuyerCanAlwaysSettle | programs/agentbond/src/processor/accept_work.rs:18-98 | in every reachable state with usable recipients the buyer can settle a submitted job, paused or not |
| EscrowLaws.CreationWorks | programs/agentbond/src/processor/create_job.rs:21-115 | such a creation succeeds at an unused address while unpaused |
| EscrowLaws.FundingWorks | programs/agentbond/src/processor/fund_job.rs:18-86 | before the deadline the buyer can fund an empty escrow from any wallet of its own that holds the amount |
| EscrowLaws.AcceptanceWorks | programs/agentbond/src/processor/accept_job.rs:15-84 | before the deadline the registered provider can accept with one minimum bond free |
| EscrowLaws.SubmissionWorks | programs/agentbond/src/processor/submit_receipt.rs:17-95 | up to the deadline a receipt for exactly this job under a registered key is taken |
| EscrowLaws.SlashWorks | programs/agentbond/src/processor/resolve.rs:252-356 | within the window the admin can slash in every reachable state where the buyer has a wallet |
| EscrowLaws.RefundWorksIff | programs/agentbond/src/processor/resolve.rs:142-224 | exactly when anyone can have a job refunded, for every bond account named and for both refund instructions |
| EscrowLaws.TimeoutWorksIff | programs/agentbond/src/processor/resolve.rs:25-132 | exactly when anyone can have a job settled by timeout, for every bond and challenge account named |
| EscrowLaws.ClosingWorks | programs/agentbond/src/processor/resolve.rs:358-405 | a finished job can always be closed by its buyer, and its empty escrow with it |
| EscrowLaws.AccountsCloseLawfully | programs/agentbond/src/processor/resolve.rs:358-405 | a token account disappears only empty, an escrow only with its own job by that job's buyer |
| EscrowLaws.WithdrawalWorks | programs/agentbond/src/processor/withdraw_bond.rs:16-82 | any unlocked amount can be withdrawn to any wallet of the provider, paused or not |
| EscrowLaws.DepositWorks | programs/agentbond/src/processor/deposit_bond.rs:26-142 | a registered provider can deposit what a wallet of its own holds |
| EscrowLaws.NobodyElseSpends | programs/agentbond/src/token.rs:117-144 | no step debits a wallet without its owner's signature |
| EscrowBondLaws.ChallengeWindow | programs/agentbond/src/processor/challenge_work.rs:60-84 | over runs: after a challenge at clock c, while the job stays challenged, below c + duration the admin's slash succeeds and no timeout settlement does, from then on the reverse |
| EscrowBondLaws.WindowStays | programs/agentbond/src/processor/challenge_work.rs:76-89 | a challenged job keeps its challenge unchanged until it is finished |
| EscrowBondLaws.BondsChangeLawfully | programs/agentbond/src/processor/withdraw_bond.rs:41-73 | a bond changes only by its provider's deposit, withdrawal or acceptance, the admin's slash, or the release of a share of its own jobs, each by exactly its amount |
| EscrowBondLaws.BondAppears | programs/agentbond/src/processor/deposit_bond.rs:26-142 | a bond exists from its first positive deposit on, with exactly that |
| EscrowBondLaws.VaultsPayLawfully | programs/agentbond/src/processor/withdraw_bond.rs:41-73 | tokens leave a vault only to its own provider by withdrawal or by the admin's slash |
| EscrowBondLaws.EscrowsPayLawfully | programs/agentbond/src/processor/resolve.rs:97-123 | tokens leave an escrow only by a payout of its own job |
| EscrowBondLaws.ConfigChangesLawfully | programs/agentbond/src/processor/initialize_config.rs:18-79 | the configuration is written once as given and then changed by its admin's pausing alone |
| EscrowBondLaws.InitializationWorks | programs/agentbond/src/processor/initialize_config.rs:18-79 | the first configuration is accepted if and only if its values are positive and non-zero |
| EscrowBondLaws.PausingWorks | programs/agentbond/src/processor/set_paused.rs:12-32 | the admin can always pause and resume |
| EscrowBondLaws.KeysChangeLawfully | programs/agentbond/src/processor/execution_keys.rs:13-110 | a provider registers itself, once and without keys, and alone changes its keys, one at a time, up to four |
| EscrowBondLaws.KeysWork | programs/agentbond/src/processor/register_provider.rs:19-71 | registration, adding with room and revoking an own key succeed |
| ExecutionKeys.ChangeRefines | programs/agentbond/src/processor/execution_keys.rs:38-101 | adding and revoking on the array is set insert and remove, refused in the same cases |
| ExecutionKeys.ArrayRefinesSet | programs/agentbond/src/processor/execution_keys.rs:38-101 | after any sequence of changes the used part is distinct and non-zero, the tail zero, and the array is the set |
| ExecutionKeys.EscrowAgreesOnAdd | programs/agentbond/src/processor/execution_keys.rs:13-50 | the escrow model's key sets accept and store an added key as the array does |
| ExecutionKeys.EscrowAgreesOnRevoke | programs/agentbond/src/processor/execution_keys.rs:61-101 | and drop a revoked key as the array does |
| ExecutionKeys.ProviderAccount.ContainsExecutionKey | crates/agentbond-types/src/accounts.rs:184-189 | membership in the set |
| ExecutionKeys.ProviderAccount.AddExecutionKey | programs/agentbond/src/processor/execution_keys.rs:13-50 | the array in place, with each refusal |
| ExecutionKeys.ProviderAccount.RevokeExecutionKey | programs/agentbond/src/processor/execution_keys.rs:80-101 | search and swap with the last, in place |
| IndexerRepo.ProjectionRepo.UpsertSlot | host/crates/agentbond-db/src/projection.rs:196-284 | the in-place upsert is the slot transition of the model, errors included |
| IndexerRepo.ProjectionRepo.CleanupDeadSlot | host/crates/agentbond-db/src/projection.rs:603-621 | drops the unfinalized rows, events and staged versions of a dead slot |
| IndexerRepo.ProjectionRepo.InsertAccountWithProjection | host/crates/agentbond-db/src/projection.rs:286-374 | stores a version once, staged or applied by its slot's status |
| IndexerRepo.ProjectionRepo.InsertEvent | host/crates/agentbond-db/src/projection.rs:376-420 | stores an event once, finalized if its slot is |
| IndexerRepo.ProjectionRepo.FinalizeSlot | host/crates/agentbond-db/src/projection.rs:422-511 | checks, marks, publishes the staged rows in order and moves the checkpoint |
| IndexerRepo.ProjectionRepo.PublishRows | host/crates/agentbond-db/src/projection.rs:446-496 | the publishing loop is the fold over the ordered rows |
| IndexerRepo.ProjectionRepo.ApplyProjection | host/crates/agentbond-db/src/projection.rs:695-919 | a row replaces one not newer, a tombstone removes those not newer |
| IndexerRepo.ProjectionRepo.IngestUpdate | host/crates/agentbond-indexer/src/engine.rs:64-141 | one update of the stream |
| IndexerRepo.ListsUnique | host/crates/agentbond-db/src/projection.rs:446-496 | the ordered query has one possible answer |
| Ancestry.AssertAncestry | host/crates/agentbond-db/src/projection.rs:642-693 | the loop with its visited set accepts exactly the slots with a good parent chain of at most 256 slots |
| Ancestry.WalkIsAncestry | host/crates/agentbond-db/src/projection.rs:642-693 | the bounded walk and the existence of such a chain are the same |
| Ancestry.ChainBound | host/crates/agentbond-db/src/projection.rs:642-693 | accepted if and only if a good chain of at most 256 slots starts there, the number written out |
| Ancestry.CyclicAncestryRefused | host/crates/agentbond-db/src/projection.rs:642-693 | a slot whose ancestry runs into a cycle is never accepted |
| IndexerForks.RunKeeps | host/crates/agentbond-indexer/src/engine.rs:64-141 | every run keeps the table invariant, and slots only move up the commitment lattice |
| IndexerForks.ForkSafety | host/crates/agentbond-db/src/projection.rs:221-284 | public rows come from finalized slots at or below the checkpoint that never die; a dead slot never becomes public; recorded parents never change |
| IndexerForks.FirstFinalizationChecksAncestry | host/crates/agentbond-db/src/projection.rs:422-446 | called alone on a slot not yet finalized, finalization succeeds exactly on an accepted ancestry |
| IndexerForks.EngineSkipsAncestry | host/crates/agentbond-indexer/src/engine.rs:89-112 | through the engine, finalization succeeds exactly when the upsert does |
| IndexerForks.EngineFinalizesOverDeadParent | host/crates/agentbond-db/src/projection.rs:436-446 | a stream after which a slot is refused alone and finalized through the engine, over a dead parent |
| IndexerParents.StepKeepsParentsIff | host/crates/agentbond-indexer/src/engine.rs:89-112 | when finalized slots have finalized parents, an update keeps that if and only if it finalizes no slot over a parent that is not finalized |
| IndexerParents.EngineKeepsParentsIff | host/crates/agentbond-indexer/src/engine.rs:89-112 | over any stream finalized slots have finalized parents at every point if and only if no update finalizes a slot before its parent |
| IndexerParents.EngineKeepsAncestryIff | host/crates/agentbond-indexer/src/engine.rs:89-112 | the same for whole chains to a root, hence no cycle and no dead ancestor |
| IndexerCrash.CrashHeals | host/crates/agentbond-indexer/src/engine.rs:89-140 | after a crash between the transactions or events of an update, delivering it again ends where it would have ended |
| IndexerCrash.CrashedRunResumes | host/crates/agentbond-indexer/src/engine.rs:33-62 | with any number of crashes, also inside one update, an indexer that resumes from the update at hand ends with the tables of an undisturbed run, invariants restored |
| IndexerReference.AgreementDetermines | host/crates/agentbond-db/src/projection.rs:446-496 | the reference leaves one possible content for each public cell |
| IndexerReference.PublishCell | host/crates/agentbond-db/src/projection.rs:446-496 | publishing a slot: a newer row stays, else the last relevant version decides |
| IndexerReference.FinalizeAgreesIff | host/crates/agentbond-db/src/projection.rs:446-496 | finalizing keeps a cell equal to the reference if and only if no newer tombstone is followed by an older row |
| IndexerReference.InOrderIsReference | host/crates/agentbond-db/src/projection.rs:446-496 | with slots finalized in increasing order and nothing late, every cell is the last finalized version, absent after a tombstone |
| IndexerReference.AnyOrderWithoutTombstones | host/crates/agentbond-db/src/projection.rs:695-919 | for an address never tombstoned, in every order |
| IndexerReference.OrderDoesNotMatter | host/crates/agentbond-db/src/projection.rs:695-919 | so two orders of the same versions and finalized slots show the same |
| IndexerReference.LateAgreesIff | host/crates/agentbond-db/src/projection.rs:295-372 | a late version keeps a cell right if and only if it puts no row after a newer tombstone and hides no newer version of its slot |
| IndexerReference.AgreesIff | host/crates/agentbond-db/src/projection.rs:196-511 | the exact condition under which any update keeps a cell equal to the reference |
| IndexerReference.AlwaysRightIff | host/crates/agentbond-db/src/projection.rs:196-511 | over any stream, any order and late versions included, a cell is right at every point if and only if every update meets that condition |
| IndexerReference.OutOfOrderRevives | host/crates/agentbond-db/src/projection.rs:695-919 | a stream that was right brings a dead account back by finalizing its older slot |
| IndexerReplay.AllAbsorbed | host/crates/agentbond-indexer/src/engine.rs:64-141 | after an error-free run every update has left its trace, except rows of exactly the slots reported dead |
| IndexerReplay.ReplayChangesNothing | host/crates/agentbond-indexer/src/engine.rs:64-141 | replaying a whole error-free stream leaves slots, raw and staged rows, projections, events and checkpoints unchanged |
| IndexerLaws.EventsAreStored | host/crates/agentbond-db/src/projection.rs:376-420 | after an error-free stream that never contradicts itself every event whose slot is not dead is stored under its key with its own content and slot, finalized exactly when its slot is; every stored event was told, with its commitment |
| IndexerLaws.VersionsAreStored | host/crates/agentbond-db/src/projection.rs:286-374 | the same for account versions |
| IndexerLaws.SlotsAreStored | host/crates/agentbond-db/src/projection.rs:196-284 | each slot named is stored with its own parent and a status told of it that covers every notice; the finalized checkpoint is the highest slot told finalized |
| IndexerLaws.RowsAreTold | host/crates/agentbond-indexer/src/engine.rs:64-141 | also after an error: no row without word of it in the stream, none with another content |
| IndexerLaws.AcceptedIff | host/crates/agentbond-db/src/projection.rs:196-284 | exactly when one update of any kind is taken |
| IndexerLaws.StreamIsAcceptedIff | host/crates/agentbond-indexer/src/engine.rs:64-141 | a stream consistent about parents is taken without error if and only if its numbers fit, no slot is its own parent and no slot is reported both finalized and dead |
| IndexerLaws.FinalizationMarks | host/crates/agentbond-db/src/projection.rs:422-511 | finalizing marks the slot and all its rows, empties its staging and raises both checkpoints |
| IndexerLaws.DeathClearsTheSlot | host/crates/agentbond-db/src/projection.rs:603-621 | a death removes everything of its slot, and nothing of any other slot is lost or changed |
| IndexerLaws.DeathSparesFinalized | host/crates/agentbond-db/src/projection.rs:603-621 | whatever the tables hold, rows marked finalized survive it |
| IndexerGaps.DetectForwardGap | host/crates/agentbond-indexer/src/engine.rs:201-209 | exactly the slots strictly between, for all 64-bit values |
| IndexerGaps.TrackSlots | host/crates/agentbond-indexer/src/engine.rs:33-88 | the loop over notices in any order, which stops at the first it cannot store |
| IndexerGaps.WatchesPrefix | host/crates/agentbond-db/src/projection.rs:522-533 | the loop tracks a prefix of the stream, all of it if and only if every slot fits the signed columns |
| IndexerGaps.GapsPartition | host/crates/agentbond-indexer/src/engine.rs:72-88 | a slot is in a recorded gap if and only if it lies above the start, at or below the highest seen, and was not notified as a new highest |
| IndexerGaps.GapsAreDisjoint | host/crates/agentbond-indexer/src/engine.rs:72-88 | recorded gaps are ordered and disjoint, strictly inside the covered range |
| IndexerGaps.EverySlotIsCovered | host/crates/agentbond-indexer/src/engine.rs:33-88 | every slot up to the highest seen is notified or in a recorded gap |
| IndexerGaps.RestartRecordsTheGap | host/crates/agentbond-indexer/src/engine.rs:33-42 | after a restart the first notice records the gap from the processed checkpoint, or from the finalized one if there is no other |
| IndexerReads.ListJobs | host/crates/agentbond-db/src/reads.rs:91-162 | a page of the filtered table with a printed cursor, or the validation or conflict error, unreadable addresses included |
| IndexerReads.JobHistory | host/crates/agentbond-db/src/reads.rs:164-216 | a page of a job's finalized events with a printed cursor, or the validation error, an unreadable job address included |
| Paging.CursorLeadsOn | host/crates/agentbond-db/src/reads.rs:136-156 | the next cursor leads to exactly what a page left out |
| IndexerReads.JobWalk | host/crates/agentbond-db/src/reads.rs:119-161 | for every valid filter and every limit from 1 to 100, any walk over the printed cursors of job pages returns exactly the filtered table |
| IndexerReads.JobWalkExists | host/crates/agentbond-db/src/reads.rs:119-161 | with no row newer than the checkpoint such a walk exists |
| IndexerReads.HistoryWalk | host/crates/agentbond-db/src/reads.rs:176-215 | any walk over printed cursors returns the finalized events of the job, each once, in order |
| IndexerReads.HistoryWalkExists | host/crates/agentbond-db/src/reads.rs:204-210 | such a walk exists: the cursors run out |
| Paging.WalkIsComplete | host/crates/agentbond-db/src/reads.rs:119-215 | for every strict order and every readable cursor format, a walk over printed cursors returns all rows, each once and in order |
| IndexerReads.CursorRoundTrip | host/crates/agentbond-db/src/reads.rs:335-349 | an event cursor parses back to the place that printed it |
| IndexerReads.NeverConflict | host/crates/agentbond-db/src/reads.rs:138-141 | between completed ingests the conflict branch is unreachable |
| IndexerReadLaws.JobPageIsRight | host/crates/agentbond-db/src/reads.rs:91-162 | a page holds the first rows with the state, buyer and provider asked for past the cursor, as many as the limit if more follow, and a cursor exactly then; refused exactly if one of them is newer than the checkpoint |
| IndexerReadLaws.JobRefusals | host/crates/agentbond-db/src/reads.rs:318-333 | a job request is refused exactly for a limit outside 1 to 100, an unknown state or an unreadable address |
| IndexerReadLaws.HistoryPageIsRight | host/crates/agentbond-db/src/reads.rs:164-216 | a page holds the first finalized events of the job past the cursor, and a cursor exactly if more follow |
| IndexerReadLaws.HistoryRefusals | host/crates/agentbond-db/src/reads.rs:164-181 | a history request is refused exactly for a limit out of range or an unreadable address or cursor |
| IndexerReadLaws.CursorsReadAs | host/crates/agentbond-db/src/reads.rs:335-349 | an event cursor is read if and only if it is a signature, a colon and a non-negative 32-bit number, and as these |
| IndexerReadLaws.JobWalkRows | host/crates/agentbond-db/src/reads.rs:119-128 | a row is returned by a walk if and only if it is in the table with the state, buyer and provider asked for |
| IndexerReadLaws.HistoryShowsFinalized | host/crates/agentbond-db/src/reads.rs:176-184 | after any stream a walk over a job's history returns exactly the stored events about that job in finalized slots |
| SettlementStores.PgSettlementStore.SelectForUpdate | host/crates/agentbond-db/src/payments.rs:189-277 | the read path answers from the locked row and leases it when stale or retryable |
| SettlementStores.PgSettlementStore.InsertRow | host/crates/agentbond-db/src/payments.rs:279-300 | inserts unless the digest is taken |
| SettlementStores.PgSettlementStore.Begin | host/crates/agentbond-db/src/payments.rs:184-307 | whatever other workers do at each pause, with clock and token drawn anew by each statement, the recursive retry terminates with the answer and table of one atomic `begin` |
| SettlementStores.PgSettlementStore.Complete | host/crates/agentbond-db/src/payments.rs:309-344 | settles exactly the row held under this lease and binding |
| SettlementStores.PgSettlementStore.Fail | host/crates/agentbond-db/src/payments.rs:346-373 | fails exactly that row |
| SettlementStores.InvokePaidDemo | host/crates/agentbond-payments/src/resource.rs:98-158 | with others active at every pause, a returned result is the settled one of this digest and binding; undisturbed, table and result are fully determined |
| SettlementStores.MemorySettlementStore.Begin | host/crates/agentbond-payments/src/settlement.rs:62-139 | eviction, then the answer of the in-process store |
| SettlementStores.MemorySettlementStore.Complete | host/crates/agentbond-payments/src/settlement.rs:141-168 | settles the matching entry; the two different errors otherwise |
| SettlementStores.MemorySettlementStore.Fail | host/crates/agentbond-payments/src/settlement.rs:170-195 | fails the matching entry; an entry no longer settling is no error |
| SettlementStores.MemorySettlementStore.Evict | host/crates/agentbond-payments/src/settlement.rs:198-204 | keeps exactly the entries not older than two minutes |
| SettlementStores.MemorySettlementStore.EvictOneTargeted | host/crates/agentbond-payments/src/settlement.rs:206-219 | removes one oldest entry that is not in flight, if any |
| SettlementProtocol.BeginGrants | host/crates/agentbond-payments/src/settlement.rs:62-139 | in both stores `begin` keeps every live grant, grants only what nobody holds live, and records it |
| SettlementProtocol.EndGrants | host/crates/agentbond-db/src/payments.rs:321-373 | `complete` and `fail` end at most the grant they name |
| SettlementProtocol.RunKeepsLeases | host/crates/agentbond-payments/src/resource.rs:98-158 | in every state of every run the leases of all workers and the store agree |
| SettlementProtocol.LeaseIsExclusive | host/crates/agentbond-db/src/payments.rs:233-277 | no two workers ever hold unexpired leases for one digest, in either store |
| SettlementProtocol.LiveLeaseIsRecorded | host/crates/agentbond-payments/src/settlement.rs:198-219 | an unexpired lease is never evicted or taken over |
| SettlementProtocol.OnlyTheLatestLeaseEnds | host/crates/agentbond-db/src/payments.rs:321-373 | only the latest lease completes or fails, and in the database it always can |
| SettlementTheorems.RunAdvancesRows | host/crates/agentbond-db/src/payments.rs:206-277 | rows stay, bindings never change, settled is absorbing, between any two points of a run |
| SettlementTheorems.ResponsesAgree | host/crates/agentbond-payments/src/resource.rs:98-158 | under every interleaving all successful responses for one digest carry the same result and binding |
| SettlementTheorems.BeginIsAtomic | host/crates/agentbond-db/src/payments.rs:191-307 | each statement of the racing `begin` changes nothing or is the atomic `begin` at that instant |
| SettlementTheorems.RetryEnds | host/crates/agentbond-db/src/payments.rs:301-306 | after a lost insert race every later read of the digest is answered |
| SettlementTheorems.NoDigestIsStuck | host/crates/agentbond-db/src/payments.rs:233-249 | thirty seconds after the last touch a request with the right binding gets a lease or the result, whatever crashed |
| SettlementLaws.FailureDelaysTwoSeconds | host/crates/agentbond-db/src/payments.rs:239-248 | over runs of both stores: after a failure at t, while it is recorded and nobody has been granted the digest, every request with its binding is refused before t + 2 seconds and changes nothing of it, and is granted from then on |
| SettlementLaws.LeaseLastsThirtySeconds | host/crates/agentbond-db/src/payments.rs:233-238 | over runs of both stores: a digest granted at t is refused up to t + 30 seconds and recovered by the first request after that, while the grant is recorded |
| SettlementLaws.UnknownIsGranted | host/crates/agentbond-db/src/payments.rs:279-300 | a digest of which nothing is recorded is granted for thirty seconds, in the database by the insert that follows |
| SettlementLaws.InsertGrants | host/crates/agentbond-db/src/payments.rs:279-300 | an insert that finds no row grants thirty seconds |
| SettlementLaws.OtherBindingIsRefused | host/crates/agentbond-db/src/payments.rs:206-222 | a digest recorded for one binding is refused to any other, and the record stays |
| SettlementLaws.MalformedIsRefused | host/crates/agentbond-db/src/payments.rs:376-402 | malformed digests and bindings are refused as errors and change nothing |
| SettlementLaws.RowsAreHex | host/crates/agentbond-db/src/payments.rs:376-402 | no run stores a digest, input digest or memo that is not hexadecimal of the right length |
| SettlementLaws.GrantedRow | host/crates/agentbond-db/src/payments.rs:252-277 | a granted read rewrites exactly the lease columns of its own row |
| SettlementLaws.EndsItsOwn | host/crates/agentbond-db/src/payments.rs:309-373 | completing and failing end exactly the grant with this lease and binding, store exactly its result or failure, and touch no other record |
| SettlementLaws.FinishSettles | host/crates/agentbond-payments/src/resource.rs:98-158 | finishing under the recorded lease settles the digest with the result if it fits the columns, and otherwise changes nothing |
| SettlementLaws.SettledIsAnswered | host/crates/agentbond-db/src/payments.rs:223-232 | from then on the database answers every request with its binding with that result |
| SettlementLaws.KeptIsAnswered | host/crates/agentbond-payments/src/settlement.rs:62-139 | and the in-process store for two minutes, while it has kept the entry |
| SettlementLaws.EntriesLeft | host/crates/agentbond-payments/src/settlement.rs:198-219 | what a read leaves of the other entries: all not older than two minutes, but for one oldest not in flight if the digest is new and 512 are left |
| SettlementMemory.SettledSurvivesIff | host/crates/agentbond-payments/src/settlement.rs:62-219 | a settled entry survives a step if and only if the step is not a read that evicts it, for its age or to make room |
| SettlementMemory.LosableIff | host/crates/agentbond-payments/src/settlement.rs:198-219 | a read can lose it if and only if it is older than two minutes, or the digest is new, the map full and the entry an oldest one not in flight |
| SettlementMemory.MemoryResponsesAgree | host/crates/agentbond-payments/src/settlement.rs:62-139 | while no settled entry of a digest is at risk all its responses carry one binding and result |
| SettlementMemory.CalmResponsesAgree | host/crates/agentbond-payments/src/settlement.rs:11-14 | in particular while the map has room and settled entries are within their two minutes |
| SettlementForgets.RiskBreaksAgreement | host/crates/agentbond-payments/src/settlement.rs:123-137 | from any state in which an entry is at risk the run can answer its digest with any other binding and result |
| SettlementForgets.ForgetsWhenOld | host/crates/agentbond-payments/src/settlement.rs:198-204 | a run with two different results for one digest, by age |
| SettlementForgets.ForgetsWhenFull | host/crates/agentbond-payments/src/settlement.rs:206-219 | and one in which no time passes, by capacity |
| LogStack.Extract | host/crates/agentbond-indexer/src/decode.rs:31-98 | the loop over lines, for any way of reading a line: exactly the events on top of the stack, numbered in order |
| LogDecoder.ExtractProtocolEvents | host/crates/agentbond-indexer/src/decode.rs:19-100 | the decoder on log text |
| LogDecoder.ReadFramed | host/crates/agentbond-indexer/src/decode.rs:32-60 | how a line with a program id is read, for every id without a space |
| LogDecoder.ReadDepth | host/crates/agentbond-indexer/src/decode.rs:102-109 | a printed depth is read back, for every 64-bit value |
| LogDecoder.RenderedReads | host/crates/agentbond-indexer/src/decode.rs:31-66 | the lines of a rendered tree are read one by one, those of invocations as what they were written for |
| LogDecoder.ExtractionIsExact | host/crates/agentbond-indexer/src/decode.rs:31-100 | for every well-nested call tree of depth at most 64 the decoder returns exactly the events whose innermost frame is the program, in order |
| LogDecoder.ExtractionIsNumbered | host/crates/agentbond-indexer/src/decode.rs:85-98 | the k-th event of the tree comes out k-th under number k |
| LogDecoder.RecoversAfterGarbage | host/crates/agentbond-indexer/src/decode.rs:36-60 | after any garbage at most one complete top-level invocation is lost, nothing wrong is attributed to it, then extraction is exact |
| LogLaws.EventsOfLines | host/crates/agentbond-indexer/src/decode.rs:85-97 | from any stack over any lines: the output is what the decodable data lines under the program's frame decode to, each line once, none missing, in order |
| LogLaws.OutputOfLines | host/crates/agentbond-indexer/src/decode.rs:85-98 | content, number, signature and slot of every event, tied to a strictly increasing and complete list of line positions |
| LogLaws.EventsOfTree | host/crates/agentbond-indexer/src/decode.rs:62-97 | the events of a call tree are what its own decodable data lines decode to, each line once |
| LogLaws.ExtractionByTexts | host/crates/agentbond-indexer/src/decode.rs:31-100 | the decoder returns exactly those for every well-nested tree of depth at most 64 |
| LogLaws.LinesRead | host/crates/agentbond-indexer/src/decode.rs:32-65 | exactly which lines read as a start with which depth, as an end, or as data with which text |
| LogLaws.DepthsAreRead | host/crates/agentbond-indexer/src/decode.rs:102-109 | a depth is read if and only if the first brackets hold a 64-bit number |
| LogLaws.DepthLimit | host/crates/agentbond-indexer/src/decode.rs:44-47 | an invocation below 64 frames clears the stack |
| LogLoud.NoisyExtraction | host/crates/agentbond-indexer/src/decode.rs:31-66 | the exact output for every log of a call tree, with any number of lines that look like frames, shown depths or not, at any depth |
| LogLoud.NeverWrong | host/crates/agentbond-indexer/src/decode.rs:36-66 | what is returned is always a subsequence of the events: none is attributed wrongly, repeated or reordered |
| LogLoud.ExactIffAllHeard | host/crates/agentbond-indexer/src/decode.rs:31-66 | a log is decoded right if and only if every decodable data line of the program is quiet and stands where the decoder is in step |
| LogLoud.LoudLinesLoseTheRest | host/crates/agentbond-indexer/src/decode.rs:32-60 | in particular, where nothing brings the decoder back into step: right if and only if no decodable data line of the program stands at or after such a line in its top-level invocation |
| LogNoise.NoisyRun | host/crates/agentbond-indexer/src/decode.rs:36-66 | from any stack a line can leave behind, the output and the final stack of every trace are those read off the tree |
| LogLoud.MessageExample | host/crates/agentbond-indexer/src/decode.rs:36-60 | every labelled line, a message or a return value say, that starts with one of the three words costs the event after it |
| LogLoud.DataExample | host/crates/agentbond-indexer/src/decode.rs:36-60 | so does another program's data line that starts with one of them |
| LogLoud.PairExample | host/crates/agentbond-indexer/src/decode.rs:36-60 | but a starting and an ending one cancel, and the event after them is returned |
| Receipts.EncodeInto | crates/agentbond-types/src/receipt.rs:48-76 | filling the fixed buffer field by field gives the layout, refused for reversed timestamps |
| Receipts.DecodeEncode | crates/agentbond-types/src/receipt.rs:78-150 | every valid receipt decodes from its 334 bytes, negative times included |
| Receipts.EncodeDecode | crates/agentbond-types/src/receipt.rs:78-150 | accepted bytes are the one encoding of what they decode to |
| Receipts.EncodedBytes | crates/agentbond-types/src/receipt.rs:48-76 | which of the 334 bytes hold which field, the positions written out |
| Receipts.DecodeRefusals | crates/agentbond-types/src/receipt.rs:78-150 | exactly which bytes are refused, and with which of the four errors |
| Receipts.I64Bytes | crates/agentbond-types/src/receipt.rs:71-74 | eight little-endian bytes in two's complement |
| Ed25519Layout.BuildVerifyInstruction | host/crates/agentbond-sdk/src/receipt.rs:23-61 | the built data is the layout; refused exactly for a wrong length or a zero key |
| Ed25519Layout.BuiltParses | programs/agentbond/src/ed25519.rs:44-108 | every built instruction parses to its own key, for every message, signature and index |
| Ed25519Layout.SliceChecked | programs/agentbond/src/ed25519.rs:128-134 | bytes are returned exactly when they lie within the data |
| Ed25519Layout.AcceptedIsVerified | programs/agentbond/src/ed25519.rs:44-108 | an accepted key means that the precompile made exactly one check, of this very message under that key |
| Ed25519Layout.VerifiedIsAccepted | programs/agentbond/src/ed25519.rs:44-116 | every such instruction that refers only to itself is accepted |
| Ed25519Layout.BuiltIsVerified | host/crates/agentbond-sdk/src/receipt.rs:38-56 | a built instruction makes the precompile check exactly this signature of this message under this key |
| Ed25519Layout.WhyRefused | programs/agentbond/src/ed25519.rs:44-108 | which error a receipt of the wrong length and a check of another message get |

## Left out

- Error codes of the on-chain program: a refused instruction is a refused instruction.
- Address derivation, signer seeds, account owners, writability, ATA addresses, decimals, token-program ids, frozen or delegated token accounts and rent (but for lamports that block an account's creation, which are modelled): addresses are injective keys and signers are step parameters; usable recipient accounts are a premise of `NoStuckFunds`.
- SHA-256 and Ed25519 verification: a stored receipt digest is represented by its receipt, a verified signature by its signer; `Ed25519Layout` covers which bytes were checked.
- Account updates that claim `finalized` on arrival and events that do: sources report processed or confirmed data (host/crates/agentbond-indexer/src/yellowstone.rs:315), which is a premise of the run theorems.
- Block times, update times, database failures other than crashes and numbers out of range, and timestamp conversion errors of the indexer.
- `repair_gap` beyond its notices: backfilled updates count as further updates of the stream; the gap table's repair states and the replay of gaps are not modelled.
- LogDecoder.ExtractProtocolEvents: trimming, the length limits, base64 and the event codec of a data line are one function parameter.
- IndexerReads.ListJobs: base58 reading and printing of addresses are function parameters that invert each other; number formatting is not modelled; addresses compare as numbers, event places under any strict order.
- SettlementProtocol.BeginGrants: the clock stands still within one statement.
- SettlementStores.InvokePaidDemo: starts at `begin`; challenge lookup, payload validation and header encoding before and after are not modelled, and the facilitator's replies are parameters.
- The PostgreSQL column checks that only accept lower-case digests, and JSON normalisation of the stored body.
- What the facilitator itself does, in particular paying exactly once (README.md:227 of the repository disclaims it).
- The remaining account, event and instruction codecs: easy after the receipt codec.
- Gateway, MCP server, CLI, simulator, HTTP and RPC clients, metrics, reconnects: I/O and thin wrappers.
