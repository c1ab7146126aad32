# Verification of the g-pay quarantine protocol

A Dafny 4.11 model of how money, evidence and information move through g-pay,
with proofs about whole runs of it. Five parts are modelled.

**The quarantine vault program.** A deposit of lamports or tokens waits in an
account of the program until enough oracles of its vault have called it clean
or dirty, or until it expires; then it is released or refunded. `Vault` gives
the chain as a value (`World`: clock, lamports, token accounts, vaults,
deposits) and each instruction as a function to a result, so that a failed
instruction has no effect. Every value movement is recorded in a log. Addresses
derived from seeds are constructors of one datatype, hence injective, and
nobody can sign for them. `Handlers` holds the Rust handlers as methods that
change account objects in place, two of which may be the same object; `Bank` is
the runtime around them and proves that each instruction, with its account
constraints, rent and handler, is exactly the function of `Vault`. `Lifecycle`,
`Evidence`, `Solvency`, `Payouts`, `Settlement`, `Confluence` and `CompleteRuns` prove what
holds over every run: what evidence a settled deposit carries, that money is conserved, covered
and paid out once, that no settlement fails for money and when a deposit can be
stuck, that expiry is final, and when the outcome is independent of the order of
votes. `Origins` traces every field of every deposit, vote, vault and payout of a
run back to the instruction that set it; `Acceptance` says of each instruction
exactly when it succeeds, in amounts, bounds and clocks alone, and which error a
refused one gets. `Witnesses` gives runs that reach what the conditions exclude.

**Chain to indexer to gateway.** `Indexer` is the scan over registered slices
and the pass over all program accounts; `Webhook` the posted body and the
gateway's handler; `Store` the records of the memory and the Postgres store and
the release and refund routes. `Mirror` interleaves chain steps, passes,
deliveries that may be lost and gateway calls in any order and proves what the
mirror can say about the chain. `Gateway` traces every record of such a run to the
call that created it and every own state to the event that set it. `Resync` proves what one pass with no lost
delivery leaves in every record, undisturbed or amid other traffic. `OneDeposit`
proves which two properties hold exactly as long as the chain has one recognised
deposit per stealth key, `MirrorWitness` gives a run in which it has two, and
`Blocked` proves what one deposit that cannot be scanned does.

**Relayer.** `TokenBucket` proves the lazily refilled bucket equal to a sliding
window on every request sequence; `Relayer` proves what admission, suspension
and re-registration do to the fee ledgers and carries the window bound over to
accepted admissions; `Admissions` tells the answer of every admission of a run from
the events before it.

**Stealth addresses.** `Curve` is a record of group operations with the laws the
scheme needs, and an instance (residues modulo eight times the order, base
point 8) that meets them; the order is that of section 5.1 of RFC 8032, and the
one law about encoding is the round trip of sections 5.1.2 and 5.1.3. `Stealth`
is the Rust derivation, scan and spend; `StealthSeparation` proves that nobody but
the holder of the view key matches an address, nor under another nonce, unless the
hash collides on inputs it names, and gives a lawful curve and a hash for which
nobody else does; `StealthPort` is the TypeScript loops, proved equal to the Rust
derivation with the exact conditions under which they refuse.

**Key text.** `Radix` is positional notation in any base; `KeyText` the base58
decoder of the gateway with its loops, the hex form, and why a key's text is
never ambiguous.

`Wrappers`, `Keys`, `Ledger` and `Sums` are shared vocabulary: results, keys and
addresses, checked transfers, and sums over maps and sequences.

Check the whole project with `dafny verify dfyconfig.toml`.

## What the proofs found

- `release` and `refund` never look at a deposit's mint. Whether payouts add up
  per asset therefore depends on their being used on lamport deposits only:
  `Payouts.PayoutTotals` shows that condition to be exact, and
  `Witnesses.MisusedRun` is a run from a fresh chain that violates it: once
  somebody has sent the account of a token deposit its amount in lamports, a
  lamport release settles it and leaves the tokens in the escrow.
- An approved deposit can be settled by nobody but its release authority.
  `Settlement.NothingStuck` states for any set of keys that can sign exactly when an
  expired lamport deposit can be settled, `Settlement.TokenNothingStuck` when a token
  deposit can; `Witnesses.StuckRun` reaches, for every release authority outside
  that set, a deposit that no continuation signed by the set ever changes. The
  program accepts any authority, including the all-zero key with which the gateway's
  demo institution is configured (apps/api-gateway/src/index.ts:40) and the addresses
  the program itself derives.
- A settlement whose target is the deposit's own account moves nothing, and a
  settled deposit never pays again: `Settlement.SettlementPays`,
  `Settlement.SettledNeverPays` and `Settlement.SettledEscrowKeeps`.
  `Witnesses.SelfReleaseRun` is a run in which the lamports of a deposit released to
  its own account stay there in every continuation.
- Nothing keeps two vaults from holding a deposit of the same stealth, ephemeral
  and tag bytes, and the indexer does not look at the vault. For as long as a
  record shows one deposit its on-chain state only moves ahead
  (`Mirror.MirrorMovesAhead`). That it never turns to another deposit, and that the
  order in which two passes list the same chain does not matter, hold, as long as
  its listings can be scanned, exactly when there is one recognised deposit per key
  (`OneDeposit.NeverTurnsIffOneDeposit`, `OneDeposit.OrderFreeIffOneDeposit`).
  `MirrorWitness.RecordGoesBack` is a run from a fresh chain in which a record goes
  from approved back to pending.
- A pass is all or nothing, and deposits stay: one deposit whose ephemeral bytes are
  not a point makes every later pass fail, so that records change by the gateway's
  own calls only (`Blocked.BlockedForever`). The program accepts any ephemeral
  bytes: `Blocked.BlockedRun` is a run from a fresh chain after which no record is
  ever observed, and `Blocked.AllOnesIsNoPoint` an encoding that is no point.
- Without a majority threshold the order of votes decides the outcome for some
  verdicts: `Confluence.MajorityIsExact` shows that a majority of the distinct
  oracles is exactly what is needed.
- The two stores differ as soon as two records share a stealth key, and only
  then: `Store.StoresAgree`.
- Amounts pass through JSON numbers. The gateway's schema accepts integers above
  2^53, so such an amount is recorded rounded unless it is a multiple of the
  spacing of doubles there: `Webhook.JsNumberExact`; 2^53 + 1 is recorded as 2^53:
  `Webhook.JsNumberRounds`.
- The comment on the TypeScript derivation promises outputs equal to Rust's for
  its inputs; the code refuses zero scalars and non-canonical keys that Rust
  accepts. `StealthPort.DeriveDeterministic` states exactly when it answers;
  `StealthPort.ZeroSeedIsRefused` is a seed it refuses.

## Model

| member | source | states |
|---|---|---|
| Handlers.InitializeVaultHandler | programs/quarantine-vault/src/instructions/initialize_vault.rs:24-44 | The bounds on oracles and threshold in the order they are tested; on success the whole vault record |
| Handlers.TransferLamports | programs/quarantine-vault/src/instructions/release.rs:42-50 | Debit stored before the credited balance is read: exact errors, both balances, and no change when source and target are one account |
| Handlers.TransferChecked | programs/quarantine-vault/src/instructions/release_token.rs:73-83 | The same for two token accounts |
| Handlers.FillDeposit | programs/quarantine-vault/src/instructions/deposit.rs:57-76 | Every field of the new deposit, with the saturating deadline |
| Handlers.MakeDepositHandler | programs/quarantine-vault/src/instructions/deposit.rs:50-90 | Which error in which order; on success the deposit, the counted vault and both balances |
| Handlers.DepositTokenHandler | programs/quarantine-vault/src/instructions/deposit_token.rs:63-106 | The token twin, funding the escrow account |
| Handlers.AttestHandler | programs/quarantine-vault/src/instructions/attest.rs:31-75 | The in-place vote, duplicate search included, is the vote function: same error or same new deposit, and nothing changed on error |
| Handlers.ReleaseHandler | programs/quarantine-vault/src/instructions/release.rs:37-54 | Exact errors; Released and both balances, target equal to the deposit account included |
| Handlers.ExpireIfDue | programs/quarantine-vault/src/instructions/refund.rs:36-48 | Which states may be refunded at which time, with the transient Expired |
| Handlers.RefundHandler | programs/quarantine-vault/src/instructions/refund.rs:35-71 | Exact errors in order; Refunded whatever the transient state was, and both balances |
| Handlers.ReleaseTokenHandler | programs/quarantine-vault/src/instructions/release_token.rs:55-87 | Exact errors; Released and both token balances |
| Handlers.RefundTokenHandler | programs/quarantine-vault/src/instructions/refund_token.rs:54-99 | Exact errors; Refunded and both token balances |
| Bank.ChargeRent | programs/quarantine-vault/src/instructions/deposit.rs:33-45 | `init` takes from the payer only what the new address lacks of its rent |
| Bank.Bank.InitializeVault | programs/quarantine-vault/src/instructions/initialize_vault.rs:7-44 | The instruction is all or nothing and has exactly the effect of its function on the chain |
| Bank.Bank.MakeDeposit | programs/quarantine-vault/src/instructions/deposit.rs:19-90 | The same, rent charged before the handler runs and given back if it fails |
| Bank.Bank.OpenAccount | programs/quarantine-vault/src/instructions/deposit.rs:25-45 | The account phase both deposit instructions begin with: vault, freshness and rent, in order |
| Bank.Bank.CheckReleasable | programs/quarantine-vault/src/instructions/release.rs:12-30 | The constraints on the deposit account, checked one by one, are those of the specification |
| Bank.Bank.CheckReleasableToken | programs/quarantine-vault/src/instructions/release_token.rs:13-50 | The same with mint, escrow and target constraints |
| Bank.Bank.CheckRefundableToken | programs/quarantine-vault/src/instructions/refund_token.rs:13-49 | The same for a token refund, with the owner of the target account |
| Bank.Bank.OpenTokenAccounts | programs/quarantine-vault/src/instructions/deposit_token.rs:11-61 | The account phase of a token deposit: constraints and both rents |
| Bank.Bank.DepositToken | programs/quarantine-vault/src/instructions/deposit_token.rs:11-106 | All or nothing |
| Bank.Bank.Attest | programs/quarantine-vault/src/instructions/attest.rs:7-75 | All or nothing, on the deposit derived from the vault passed in |
| Bank.Bank.Release | programs/quarantine-vault/src/instructions/release.rs:7-54 | All or nothing, for any target |
| Bank.Bank.Refund | programs/quarantine-vault/src/instructions/refund.rs:7-71 | All or nothing, for any caller |
| Bank.Bank.ReleaseToken | programs/quarantine-vault/src/instructions/release_token.rs:8-87 | All or nothing, out of the deposit's own escrow |
| Bank.Bank.RefundToken | programs/quarantine-vault/src/instructions/refund_token.rs:8-99 | All or nothing, to a token account of the refund address |
| Ledger.MoveEffect | programs/quarantine-vault/src/instructions/refund.rs:59-67 | A transfer shifts exactly its amount and keeps the total of all lamports, self-transfers included |
| Ledger.MoveSucceeds | programs/quarantine-vault/src/instructions/refund.rs:60-67 | With a supply that fits in 64 bits a transfer fails iff the source is short: the overflow branch is dead |
| Ledger.MoveTokensEffect | programs/quarantine-vault/src/instructions/refund_token.rs:85-95 | A token transfer keeps the supply of every mint, and owners and mints of all accounts |
| Ledger.MoveTokensSucceeds | programs/quarantine-vault/src/instructions/refund_token.rs:85-95 | With a supply that fits in 64 bits a token transfer fails iff the source is short |
| Lifecycle.AdvanceIsChainStep | programs/quarantine-vault/src/state.rs:17-55 | Every step of the program only opens, votes on, releases or refunds deposits, and never changes a vault's rules |
| Lifecycle.OneDepositChanges | programs/quarantine-vault/src/instructions/release.rs:18-30 | A successful instruction changes no deposit but its own |
| Lifecycle.RunContinues | programs/quarantine-vault/src/state.rs:47-55 | Over any run deposits persist, keep their terms and only move ahead in state |
| Evidence.CountIsVoters | programs/quarantine-vault/src/instructions/attest.rs:46-64 | Without repeated voters, counted votes are distinct oracles |
| Evidence.VoteKeepsEvidence | programs/quarantine-vault/src/instructions/attest.rs:35-72 | A vote keeps voters distinct members, in the window, counts true and the state backed by them |
| Evidence.ReachableWellFormed | programs/quarantine-vault/src/instructions/initialize_vault.rs:29-41 | The evidence invariant holds of every vault and deposit after any run |
| Evidence.EvidenceInvariant | programs/quarantine-vault/src/instructions/attest.rs:35-72 | In every run: exactly the threshold of distinct clean oracles of its own vault, in time, behind Approved and Released, fewer behind Refunded, and Expired never stored |
| Evidence.TestOrderNeverDecides | programs/quarantine-vault/src/instructions/attest.rs:66-72 | Testing clean first would give the same result on every reachable deposit |
| Evidence.VotesBounded | programs/quarantine-vault/src/state.rs:40-44 | Counters equal the stored verdicts; at most min(distinct oracles, 2m-1) votes, which fit 16 entries and the reserved space |
| Evidence.SuccessConsumes | programs/quarantine-vault/src/instructions/attest.rs:35-74 | Every successful instruction on a deposit uses up part of a bound that nothing renews |
| Evidence.SuccessesBounded | programs/quarantine-vault/src/instructions/attest.rs:35-74 | In any run at most 2m attest, release and refund instructions succeed on one deposit |
| Evidence.ExpiryIsFinal | programs/quarantine-vault/src/instructions/refund.rs:39-48 | A deposit overdue while Pending can in any continuation only stay as it is or be refunded |
| Solvency.Conservation | programs/quarantine-vault/src/instructions/release.rs:37-54 | Over any run no lamport or token appears or vanishes and the log explains every balance of every account |
| Payouts.AdvanceMovesOk | programs/quarantine-vault/src/instructions/release.rs:18-54 | Every debit is signed by a wallet or is the payout that settles its own deposit, in full, to the refund address if it is a refund |
| Payouts.AlwaysSolvent | programs/quarantine-vault/src/instructions/deposit.rs:78-87 | Coverage of every deposit is kept by every step |
| Payouts.EscrowHolds | programs/quarantine-vault/src/instructions/deposit.rs:50-90 | In every run from a fresh chain total lamports are constant, an unsettled lamport deposit's account holds rent plus amount and an unsettled token deposit's escrow holds the amount |
| Payouts.SinglePayout | programs/quarantine-vault/src/instructions/refund.rs:55-70 | In every run a deposit has exactly one payout of the kind its state names if settled, and none otherwise |
| Settlement.SettlementPays | programs/quarantine-vault/src/instructions/release.rs:38-50 | When a step of a run settles a deposit, its account or escrow loses the amount and the target gains it iff the target is another account |
| Settlement.SettledNeverPays | programs/quarantine-vault/src/instructions/refund.rs:39-48 | What a settled deposit's account holds never falls again, in any continuation |
| Settlement.SettledEscrowKeeps | programs/quarantine-vault/src/instructions/refund_token.rs:58-67 | Nor do the tokens in the escrow of a settled token deposit |
| Payouts.PaidForTotals | programs/quarantine-vault/src/instructions/release.rs:37-54 | What release and refund paid for deposits of an asset is exactly the worth of its Released and of its Refunded deposits |
| Payouts.PayoutTotals | programs/quarantine-vault/src/instructions/refund.rs:18-33 | Payouts in each asset equal that asset's settled deposits iff the lamport exits were only used on lamport deposits |
| Settlement.NoFundsError | programs/quarantine-vault/src/instructions/refund.rs:59-67 | On a reachable lamport deposit neither exit ever fails for funds or overflow |
| Settlement.NoTokenFundsError | programs/quarantine-vault/src/instructions/refund_token.rs:85-95 | On reachable states a token exit never fails for want of tokens, nor by overflow while supplies fit in 64 bits |
| Settlement.RefundWorks | programs/quarantine-vault/src/instructions/refund.rs:35-71 | Anyone can refund a Rejected or overdue Pending lamport deposit, at once |
| Settlement.ReleaseWorks | programs/quarantine-vault/src/instructions/release.rs:37-54 | The release authority of an Approved lamport deposit can release it to any target, at once |
| Settlement.NothingStuck | programs/quarantine-vault/src/instructions/refund.rs:39-53 | In every run and for every set of keys that can sign, an expired unsettled lamport deposit can be settled in one step iff, when Approved, its release authority is in the set, and otherwise somebody can sign |
| Settlement.TokenNothingStuck | programs/quarantine-vault/src/instructions/refund_token.rs:34-67 | The same for token deposits, supplies fitting in 64 bits: by the release authority when Approved; otherwise by anybody, iff the refund address has a token account of the mint or the account holds the amount in lamports |
| Settlement.StuckForever | programs/quarantine-vault/src/instructions/release.rs:27-28 | An Approved deposit whose release authority is not among those who sign stays as it is in every continuation |
| Witnesses.StuckRun | programs/quarantine-vault/src/instructions/deposit.rs:61-76 | For every release authority a run from a fresh chain reaches an Approved, expired lamport deposit that nobody else can ever change |
| Witnesses.MisusedRun | programs/quarantine-vault/src/instructions/release.rs:18-30 | At any rent, a run from a fresh chain in which a lamport release settles a token deposit and leaves its rent: payouts no longer match, and the tokens stay in the escrow |
| Witnesses.SelfReleaseRun | programs/quarantine-vault/src/instructions/release.rs:42-50 | At any rent, a run in which a deposit released to its own account keeps its lamports in every continuation |
| Confluence.NoOppositeDecisions | programs/quarantine-vault/src/instructions/attest.rs:66-72 | With a majority threshold no two orders of tries reach opposite decisions |
| Confluence.CompleteOrderDecides | programs/quarantine-vault/src/instructions/attest.rs:35-72 | Any order in which every oracle tries in time is Approved iff the clean oracles reach the threshold and Rejected iff the dirty ones do |
| Confluence.MajorityIsExact | programs/quarantine-vault/src/instructions/initialize_vault.rs:29-33 | Order independence for all verdicts holds iff the threshold is a majority of the distinct oracles |
| Confluence.RunsAgree | programs/quarantine-vault/src/instructions/attest.rs:66-72 | For whole runs of the chain: not cleared in one continuation and condemned in another |
| CompleteRuns.UndecidedKeepsVoters | programs/quarantine-vault/src/instructions/attest.rs:35-52 | In any run, while no threshold is reached, every member whose attestation was executed in time is among the voters |
| CompleteRuns.CompleteRunDecides | programs/quarantine-vault/src/instructions/attest.rs:35-72 | With a majority threshold, any run in which every member attests in time, amid anything else, ends Approved or Released iff the clean oracles reach the threshold and condemned iff the dirty ones do |
| Origins.DepositOrigin | programs/quarantine-vault/src/instructions/deposit.rs:57-76 | In every run every deposit was opened by a deposit instruction of the run and agrees with it in every term: vault, depositor, mint, amount, refund address, release authority, keys and tag, created at the clock of that step and expiring the ordered seconds later unless that passes 64 bits |
| Origins.OpenedOnce | programs/quarantine-vault/src/instructions/deposit.rs:33-45 | By one instruction only |
| Origins.PayoutOrigin | programs/quarantine-vault/src/instructions/refund.rs:50-69 | Every payout of every run is of the amount the depositor ordered, to the target the instruction named; a release was signed by the release authority named at the opening, a refund went to the refund address named then or to a token account of it |
| Origins.RefundsGoAsOrdered | programs/quarantine-vault/src/instructions/refund.rs:50-69 | In the log of every run every lamport refund went to the refund address named when its deposit was opened |
| Origins.VotesAreCast | programs/quarantine-vault/src/instructions/attest.rs:54-59 | In every run the votes on a deposit are, in order, the successful attest instructions on it with their oracle, verdict, evidence and clock |
| Origins.VaultOrigin | programs/quarantine-vault/src/instructions/initialize_vault.rs:35-41 | In every run a vault has the authority, oracles and threshold it was initialised with, and its counter is the number of deposits opened in it, up to the largest number |
| Acceptance.InitializeAccepted | programs/quarantine-vault/src/instructions/initialize_vault.rs:24-44 | Any threshold from 1 among up to 16 oracles initialises a fresh vault whose rent can be paid, and nothing else does; which bound gives which error |
| Acceptance.DepositAccepted | programs/quarantine-vault/src/instructions/deposit.rs:50-90 | Any positive amount and any expiry from 60 seconds to 30 days opens a fresh deposit for whoever has the amount and the rent, and nothing else does; what the account, the payer and everybody else then hold; which bound gives which error |
| Acceptance.TokenDepositAccepted | programs/quarantine-vault/src/instructions/deposit_token.rs:63-106 | The same for tokens out of an account of the depositor's, with the escrow's rent |
| Acceptance.AttestAccepted | programs/quarantine-vault/src/instructions/attest.rs:31-53 | A vote succeeds iff the deposit is Pending, the voter an oracle of the vault who has not voted and the window open; the first that fails names the error |
| Acceptance.ReleaseAccepted | programs/quarantine-vault/src/instructions/release.rs:18-54 | A lamport release succeeds iff the deposit is Approved, its release authority signs and the account holds the amount; which failure gives which error |
| Acceptance.RefundAccepted | programs/quarantine-vault/src/instructions/refund.rs:35-71 | A lamport refund succeeds iff the deposit is Rejected or overdue, the target its refund address and the amount there; which failure gives which error |
| Acceptance.TokenReleaseAccepted | programs/quarantine-vault/src/instructions/release_token.rs:13-87 | On reachable token deposits a token release succeeds iff Approved, signed by the release authority, with the mint and a target account of it |
| Acceptance.TokenRefundAccepted | programs/quarantine-vault/src/instructions/refund_token.rs:13-99 | On reachable token deposits a token refund succeeds iff Rejected or overdue, with the mint and a target account of it owned by the refund address |
| Acceptance.WrongVaultRefused | programs/quarantine-vault/src/instructions/attest.rs:19-28 | No vote, release or refund reaches a deposit through another vault than its own |
| Acceptance.PausedVaultRefuses | programs/quarantine-vault/src/instructions/attest.rs:11-16 | A paused vault takes no deposit and no vote |
| Acceptance.PausedVaultSettles | programs/quarantine-vault/src/instructions/release.rs:12-16 | Its deposits are settled as if it were not paused |
| TokenBucket.TokenBucket.constructor | crates/relayer/src/rate_limit.rs:12-19 | A bucket starts full |
| TokenBucket.TokenBucket.Refill | crates/relayer/src/rate_limit.rs:40-48 | The in-place refill, capped, and nothing when time does not advance |
| TokenBucket.TokenBucket.TryConsumeAt | crates/relayer/src/rate_limit.rs:25-34 | The answer and the whole new state of the bucket, refused requests included |
| TokenBucket.TokensWithinWindows | crates/relayer/src/rate_limit.rs:40-48 | The bucket never holds more than any window up to now still allows |
| TokenBucket.TokensAttained | crates/relayer/src/rate_limit.rs:40-48 | Some window opening at a recorded instant allows exactly what the bucket holds |
| TokenBucket.ExactLaw | crates/relayer/src/rate_limit.rs:25-48 | A request passes iff no window opening at creation, at an earlier request or now would exceed capacity + rate * length, and then no window at all would |
| TokenBucket.WindowBound | crates/relayer/src/rate_limit.rs:25-48 | No window of any history grants more than capacity + rate * length |
| Relayer.BillingLedger.Accrue | crates/relayer/src/billing.rs:22-25 | Both counters, saturating |
| Relayer.BillingLedger.Reset | crates/relayer/src/billing.rs:35-38 | Both counters to zero |
| Relayer.Relayer.Register | crates/relayer/src/relayer.rs:48-52 | Replaces the policy, keeps an existing ledger, opens a missing one |
| Relayer.Relayer.Suspend | crates/relayer/src/relayer.rs:54-58 | Marks that institution only |
| Relayer.Relayer.Admit | crates/relayer/src/relayer.rs:66-101 | The whole new state and the answer are those of the admission function, in the order suspension, ledger, cap, bucket, accrual; what that function answers is Admissions.AdmissionDecides |
| Relayer.LedgerIsAccepted | crates/relayer/src/relayer.rs:66-101 | Over any run the missing-ledger panic is unreachable and a ledger is the saturated sum and count of the accepted fees |
| Relayer.AdmissionRespectsCap | crates/relayer/src/relayer.rs:76-95 | A refused admission changes no ledger; an accepted one changes only its own and leaves it within the cap |
| Relayer.BucketTracksRequests | crates/relayer/src/relayer.rs:91-93 | In every run an institution's bucket is the one it was last given, after exactly its own requests since that were accepted or refused for their rate |
| Relayer.AcceptedWindowBound | crates/relayer/src/relayer.rs:48-97 | In every run accepted admissions in any window stay within capacity + rate * length for each bucket the institution was given, registered again or not |
| Admissions.AdmissionDecides | crates/relayer/src/relayer.rs:66-101 | Every admission of every run is answered by the first of these that holds: never registered; suspended since its last registration; accepted fees plus the fee above the cap (unless the cap is the largest number); one more would exceed a window of the bucket it was last given; and otherwise it is accepted, at the fee of its last registration |
| Admissions.AdmissionChanges | crates/relayer/src/relayer.rs:91-95 | Refused before the bucket: nothing changes; refused by it: no ledger changes; accepted: the ledger grows by the quoted fee and one transaction, saturating; other institutions never change |
| Admissions.RemainingIsTightest | crates/relayer/src/relayer.rs:97-100 | The remaining count of an accepted admission is the floor of what the tightest window still allows after the grant |
| Admissions.SuspendedIsRefused | crates/relayer/src/relayer.rs:72-74 | From a suspension until the next registration every admission is refused as suspended, and policy, bucket and ledger stay as they are |
| Admissions.FullIsRegular | crates/relayer/src/rate_limit.rs:12-19 | A new bucket is full, with the capacity, rate and clock it was made with |
| KeyText.ReadNumber | apps/api-gateway/src/routes.ts:240-245 | The first loop reads the base-58 value, or stops at the first character outside the alphabet |
| KeyText.ExtractBytes | apps/api-gateway/src/routes.ts:246-250 | The byte loop terminates with the base-256 digits, least significant first |
| KeyText.PushLeadingZeros | apps/api-gateway/src/routes.ts:251-255 | One zero byte per leading '1' |
| KeyText.Base58Decode | apps/api-gateway/src/routes.ts:239-257 | Succeeds iff the string is over the alphabet and then returns the decoding that inverts the encoder; else names the first bad character |
| KeyText.Base58OrHexToHex | apps/api-gateway/src/routes.ts:231-235 | 64 hex digits of any case go to lower case, anything else through base58 |
| KeyText.DecodeEncode | apps/api-gateway/src/routes.ts:239-257 | decode(encode(b)) = b for every byte string, leading zeros included |
| KeyText.EncodeDecode | apps/api-gateway/src/routes.ts:239-257 | encode(decode(s)) = s for every string over the alphabet |
| KeyText.KeyTextLength | apps/api-gateway/src/routes.ts:232-232 | The base58 text of a 32-byte key has 32 to 44 characters, never 64 |
| KeyText.HexInjective | apps/api-gateway/src/store/memory.ts:97-99 | Different byte strings have different hex |
| KeyText.KeyFormsAgree | apps/api-gateway/src/routes.ts:231-235 | The base58 text and every spelling of the hex of a key go to the same lower-case hex, and different keys never meet |
| Radix.ConvertBack | apps/api-gateway/src/routes.ts:239-257 | Converting between any two bases and back is the identity |
| Curve.MulCommutes | crates/stealth-core/src/stealth.rs:49-49 | Sender and recipient multiply to the same shared point |
| Curve.MulReduced | crates/stealth-core/src/stealth.rs:76-76 | Scalars of the base point may be reduced modulo its order |
| Curve.ResidueCurveLawful | crates/stealth-core/src/stealth.rs:46-54 | The laws assumed of the group are met by a concrete group with a cofactor, for any hash |
| Stealth.SenderRecipientRoundTrip | crates/stealth-core/src/stealth.rs:40-77 | For all keys, seeds and nonces the derived address matches as itself and the reconstructed scalar is its secret key |
| Stealth.MatchIsSpendable | crates/stealth-core/src/scan.rs:19-32 | For any ephemeral bytes and candidate, a match happens iff the tag is right and the candidate is the public key of the reconstructed scalar, which is the key the scan reports iff the tag is right; both fail together |
| StealthSeparation.InputsSeparate | crates/stealth-core/src/stealth.rs:102-129 | The three hash inputs differ from one another, and each in the point, the secret and the 64-bit nonce it is made of |
| StealthSeparation.DerivedFrom | crates/stealth-core/src/stealth.rs:40-61 | The address with every hash input, reduction and multiple written out |
| StealthSeparation.ScanOfAnother | crates/stealth-core/src/scan.rs:12-33 | An address derived for one view key and nonce matches under any other iff the tags and the offsets of the two shared points are equal |
| StealthSeparation.OnlyItsViewKeyMatches | crates/stealth-core/src/scan.rs:12-33 | For an invertible seed, an honest address matches under its own view key and nonce, and under no others unless the hash collides on the two shared points or the two offset inputs |
| StealthSeparation.NobodyElseMatches | crates/stealth-core/src/scan.rs:12-33 | For a concrete lawful curve and hash: under another view key or another nonce no honest address matches |
| StealthPort.Concat | apps/api-gateway/src/stealth.ts:17-26 | The array filled part by part is the concatenation |
| StealthPort.LittleEndian | apps/api-gateway/src/stealth.ts:32-35 | The backward byte loop computes the little-endian value |
| StealthPort.ScalarFromBytesWide | apps/api-gateway/src/stealth.ts:28-37 | Answers iff there are 64 bytes, with Rust's wide reduction |
| StealthPort.ScalarFromHashBytes | apps/api-gateway/src/stealth.ts:43-52 | Equals Rust's hash-to-scalar on the low 64 bits of the nonce |
| StealthPort.DeriveDeterministic | apps/api-gateway/src/stealth.ts:63-88 | Answers iff the seed has 64 bytes, both keys are canonical and both scalars non-zero, and then all three outputs are the Rust derivation's, whose hash inputs StealthSeparation.DerivedFrom writes out |
| StealthPort.ZeroSeedIsRefused | apps/api-gateway/src/stealth.ts:69-72 | The zero seed, which Rust derives the identity as ephemeral point from, is one the port refuses |
| StealthPort.PublicKeyFromScalar | apps/api-gateway/src/stealth.ts:101-111 | Answers iff 32 bytes with a non-zero residue, with the encoded public key |
| Indexer.Indexer.Register | crates/indexer/src/lib.rs:45-47 | Slices keep their registration order |
| Indexer.Indexer.ScanProgramAccounts | crates/indexer/src/rpc_scan.rs:39-48 | The collecting loop with its skip and its early exit is the pass function |
| Indexer.ScanFindsFirst | crates/indexer/src/lib.rs:53-84 | A scan fails iff there is a slice to try and the ephemeral bytes are no point; else it names the id of the first matching slice, with the key, amount and state of the deposit, or there is none |
| Indexer.PassRefines | crates/indexer/src/rpc_scan.rs:39-48 | A pass succeeds iff no slice is registered or every decodable deposit's ephemeral bytes are a point, and then lists in account order exactly the matches |
| Indexer.PassNamesSlices | crates/indexer/src/rpc_scan.rs:39-48 | Every entry of a pass names the id of the first slice that matches the deposit of its account |
| Indexer.FilterRemovesNothing | crates/stealth-core/src/scan.rs:21-32 | Where tags are right the view-tag filter changes no result |
| Indexer.HonestDepositIsFound | crates/indexer/src/lib.rs:53-84 | A deposit derived for a registered slice is found, whatever was registered before, and the match names the first slice that matches: that slice unless an earlier one matches too |
| Indexer.HonestDepositIsNamed | crates/indexer/src/lib.rs:53-84 | Among slices of one spend key, each with its own view key or nonce, the match names the slice the deposit was made for, unless the hash collides |
| Store.MemoryStore.CreateDeposit | apps/api-gateway/src/store/memory.ts:29-43 | Appends exactly the new pending record under a fresh id |
| Store.MemoryStore.NextIdIsFresh | apps/api-gateway/src/store/memory.ts:30-41 | The next id is in use by no record |
| Store.DepositIdInjective | apps/api-gateway/src/store/memory.ts:30-30 | Different counters give different ids |
| Store.MemoryStore.Find | apps/api-gateway/src/store/memory.ts:45-47 | The record of an id |
| Store.MemoryStore.SetDepositState | apps/api-gateway/src/store/memory.ts:49-57 | Only the state of that record changes |
| Store.DepositRecord.Observe | apps/api-gateway/src/store/memory.ts:67-79 | The observed fields, and the record's own state except for a pending observation |
| Store.MemoryStore.ApplyOnChainMatch | apps/api-gateway/src/store/memory.ts:59-84 | The first record of the key is updated and returned, every other is unchanged |
| Store.PostgresStore.ApplyOnChainMatch | apps/api-gateway/src/store/postgres.ts:170-195 | Every row of the key is updated, and the first of the updated rows returned |
| Store.HexRoundTrip | apps/api-gateway/src/store/postgres.ts:176-176 | Reading the hex of a key back gives the key |
| Store.StoresAgree | apps/api-gateway/src/store/postgres.ts:170-195 | The two stores make the same change for all observations iff no two records have the key |
| Store.StoresReturnSame | apps/api-gateway/src/store/postgres.ts:183-194 | Both stores always return the same record, or none |
| Store.PostRelease | apps/api-gateway/src/routes.ts:100-120 | The method is the route function: which calls are refused how, else that record's state becomes released; when it does is Gateway.ReleaseCall |
| Store.PostRefund | apps/api-gateway/src/routes.ts:122-145 | The same for refund, with the expiry test; when it does is Gateway.RefundCall |
| Webhook.JsNumberExact | apps/api-gateway/src/routes.ts:186-192 | An amount survives JSON iff it is a multiple of the spacing of doubles at it, always below 2^53 |
| Webhook.JsNumberNearest | apps/api-gateway/src/routes.ts:186-192 | The amount read is a nearest double with at most 53 significant bits, ties to the even one |
| Webhook.JsNumberRounds | apps/api-gateway/src/routes.ts:190-190 | 2^53 + 1 is recorded as 2^53 |
| Webhook.StateNameParses | crates/indexer/src/webhook.rs:25-32 | The gateway reads every state name back as the state the indexer sent |
| Webhook.PostDepositDetected | apps/api-gateway/src/routes.ts:205-226 | Which bodies are refused how; else the match applied and its record returned |
| Webhook.BodyAnswers | apps/api-gateway/src/routes.ts:185-226 | Any body: invalid iff its state is none of the six names, a server error iff its key then is no text of a key, not found iff no record has it; no refusal changes a record |
| Webhook.DeliveryFindsKey | crates/indexer/src/webhook.rs:33-39 | Through all the text forms, a delivered match changes exactly the first record of its stealth key and is answered with it, or not found if there is none |
| Mirror.NextIsMove | crates/indexer/src/main.rs:42-63 | Every event is a chain move, a pass of matches of the present chain, one post, a gateway call that leaves the observed fields alone, or nothing |
| Mirror.RunOk | crates/indexer/src/main.rs:42-63 | The invariant that ties records and queued deliveries to past chain states holds in every interleaving |
| Mirror.MirrorIsTrue | apps/api-gateway/src/store/memory.ts:65-71 | In every interleaving a record's on-chain state is unset or one that a recognised deposit of its own key really held, never Expired, with that deposit's amount as JSON carries it |
| Mirror.RunFollows | crates/indexer/src/main.rs:42-63 | Between any two moments a record keeps what it shows or shows a state some deposit held when the first moment's pass was made or later |
| Mirror.MirrorMovesAhead | apps/api-gateway/src/store/memory.ts:59-84 | From any consistent state on and in every interleaving, a record once observed stays observed, and for as long as it shows one deposit its on-chain state only moves ahead and its amount stays |
| Gateway.ReleaseCall | apps/api-gateway/src/routes.ts:100-120 | A call of the owner releases its record iff it is approved, changes nothing else and is answered with the record or its state; any other call finds nothing and changes nothing |
| Gateway.RefundCall | apps/api-gateway/src/routes.ts:122-145 | The same for a record that is rejected, expired, or pending at or after its expiry |
| Gateway.EventStep | apps/api-gateway/src/store/memory.ts:29-84 | The exact effect of every event of an interleaving on every field of every record |
| Gateway.OwnStateIsLastSet | apps/api-gateway/src/routes.ts:100-145 | In every interleaving a record's own state is what the last event to set it set it to, Pending until then: a delivery that is not pending, a release by its institution that found it approved, or a refund by its institution that found it rejected, expired, or pending at or after its expiry |
| Gateway.StateHasCause | apps/api-gateway/src/routes.ts:100-145 | The moment at which that event happened, with nothing that set the state after it |
| Gateway.RecordOrigin | apps/api-gateway/src/store/memory.ts:29-43 | In every interleaving the records are the creation calls in order: number i + 1 in its id, and institution, key, expiry and creation time of its call |
| Gateway.PostedBody | crates/indexer/src/webhook.rs:25-39 | Every body to be posted names the id of the first slice that matches a deposit the chain held when the pass began, with that deposit's key, amount and state |
| OneDeposit.NeverTurnsIffOneDeposit | crates/indexer/src/lib.rs:53-84 | With nothing left to post and a listing that can be scanned: no continuation without chain steps makes a record go back or turn to another deposit iff the chain has one recognised deposit per stealth key |
| OneDeposit.OrderFreeIffOneDeposit | crates/indexer/src/rpc_scan.rs:22-48 | From any moment with nothing left to post and a listing that can be scanned: of two full passes of a run over the same chain the second changes observation times only, whatever the orders of their listings, iff there is one recognised deposit per stealth key |
| OneDeposit.ScansAlike | crates/indexer/src/rpc_scan.rs:39-48 | Two listings of one chain can be scanned or not together |
| Blocked.BlockedForever | crates/indexer/src/rpc_scan.rs:44-44 | With nothing left to post and a deposit whose ephemeral bytes are no point, no continuation posts anything any more and records change by the gateway's own calls only |
| Blocked.BlockedRun | crates/indexer/src/main.rs:42-61 | A run from a fresh chain after which no record is ever observed, whatever is paid and registered later |
| Blocked.AllOnesIsNoPoint | crates/stealth-core/src/stealth.rs:83-86 | In the concrete group, 32 bytes of 255 are no point |
| OneDeposit.PassIsComplete | crates/indexer/src/rpc_scan.rs:39-48 | Every recognised deposit of the listed chain is among the matches of the pass |
| MirrorWitness.RecordGoesBack | apps/api-gateway/src/store/memory.ts:65-71 | Over any lawful group, keys, seed and two vault owners: a run from a fresh chain in which a record goes from approved back to pending |
| Resync.DeliverNext | apps/api-gateway/src/store/memory.ts:65-81 | One more delivery: each record shows the last match posted to it so far |
| Resync.LastMetIsLastPaid | crates/indexer/src/rpc_scan.rs:39-48 | The last match posted to a record is that of the last listed account that pays it |
| Resync.ResynchronisedAmidTraffic | crates/indexer/src/main.rs:49-55 | However the chain moves and the gateway is called while a pass is posted: once all is delivered, every record shows the address, amount (exact below 2^53) and state of the last listed deposit that pays it, or what it showed before if there is none |
| Resync.Resynchronised | crates/indexer/src/main.rs:42-63 | After an undisturbed pass with no lost delivery that holds of every record, its own state is that of the last such deposit that is not pending, and nothing else about it changed |
| Resync.ResyncChangesTimesOnly | apps/api-gateway/src/routes.ts:205-226 | Posting a listing again in the same order changes observation times only, however many deposits share a key |
| Resync.RepeatedPassChangesTimesOnly | crates/indexer/src/main.rs:42-57 | The same for two full passes of a run over one listing, whether it can be scanned or not |
| Resync.OneDepositResync | crates/indexer/src/main.rs:49-55 | Corollary: where the chain has one recognised deposit per key, the record of that key is brought up to date with it, whatever the order of the listing |

## Left out

- HTTP, JSON and schema parsing, API keys, the internal secret and SQL text: only the state changes they lead to are modelled. A delivery arrives in order or is lost; a request the indexer gave up on that the gateway still processes later is not modelled.
- Record fields that only pass through the gateway (customer, mint, amount hint, ephemeral key, view tag, refund address), institutions, and the texts of ids and timestamps in Postgres.
- `listInstitutionDeposits` and the dashboard routes: they only read, and would add easy members.
- The text of a deposit's own address: the webhook body carries the address itself, since nothing is looked up by it.
- Curve arithmetic, point compression, SHA-512 and random sampling: a record of operations with stated laws, an arbitrary hash and an arbitrary seed. Collision resistance is not assumed, the inputs that would have to collide are named instead; unlinkability is not claimed.
- StealthSeparation.OnlyItsViewKeyMatches: asks for an inverse of the seed's scalar modulo the order. Every scalar but zero has one because the order is prime, which is not proved here.
- Solana runtime rules: compute limits, rent checks on fresh targets, account closing and fork rollback. Rent is a constant charged at creation, and what the RPC returns is final.
- The exact code of errors raised by the account framework, and their order where several constraints fail at once: one order is modelled.
- Bump bytes of derived addresses: derivation is injective by construction.
- Token-2022 extensions such as transfer fees: a token transfer moves exactly its amount.
- Minting, burning, freezing, delegating, opening and closing of token accounts by others: the only token instructions are the program's own and transfers by the owner, and the conservation of token supplies rests on that.
- Rounding of `f64` in the token bucket: tokens, rates and times are reals. The refill rate is taken to be non-negative.
- An instruction that sets `paused`: there is none, so the flag is false in every reachable vault.
- Distinctness of `oracle_set`: initialisation does not check it, so every statement counts distinct keys, and the threshold may exceed them.
- Monotonicity of the gateway's own `state`: a late delivery may overwrite a gateway-side released with approved; only the on-chain state is monotone. What sets the own state is exact (Gateway.OwnStateIsLastSet).
- Transaction decoding and fee-payer signing in `crates/relayer/src/submit.rs`, the dashboard, command-line tools, demo scripts and deployment files.
