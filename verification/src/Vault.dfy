// The quarantine vault program: its accounts, and each instruction as a
// function from one state of the chain to the next. A failed instruction
// yields an error and no state.
module Vault {
  import opened Wrappers
  import opened Keys
  import opened Ledger

  const MAX_ORACLES: nat := 16
  const MAX_ATTESTATIONS: nat := 16
  const MIN_EXPIRE_SECONDS: nat := 60
  const MAX_EXPIRE_SECONDS: nat := 60 * 60 * 24 * 30

  datatype DepositState = Pending | Approved | Rejected | Released | Refunded | Expired

  datatype Verdict = Clean | Dirty

  datatype Attestation = Attestation(oracle: Address, verdict: Verdict, timestamp: I64, evidence: Key32)

  datatype Vault = Vault(
    authority: Address,
    oracleSet: seq<Address>,
    minAttestations: U8,
    paused: bool,
    depositCount: U64)

  datatype Deposit = Deposit(
    vault: Address,
    stealth: Key32,
    ephemeral: Key32,
    viewTag: Byte,
    mint: Address,
    amount: U64,
    depositor: Address,
    refundAddr: Address,
    releaseAuthority: Address,
    createdAt: I64,
    expireAt: I64,
    state: DepositState,
    attestations: seq<Attestation>,
    cleanCount: U8,
    dirtyCount: U8)

  datatype DepositArgs = DepositArgs(
    stealth: Key32,
    ephemeral: Key32,
    viewTag: Byte,
    amount: U64,
    refundAddr: Address,
    releaseAuthority: Address,
    expireSeconds: I64)

  datatype VaultError =
    | Paused
    | UnauthorizedOracle
    | DuplicateAttestation
    | TooManyOracles
    | InvalidThreshold
    | InvalidState
    | AlreadyExpired
    | InvalidExpiry
    | InvalidAmount
    | InvalidRefundAuthority
    | InvalidReleaseAuthority
      // raised by the account framework
    | AccountNotInitialized
    | AlreadyInUse
    | ConstraintSeeds
    | ConstraintRaw
      // raised by a transfer
    | Transfer(cause: LedgerError)

  // -------------------------------------------------------------------------
  // One deposit

  function SaturatingInc(count: U8): U8 {
    if count < U8_MAX then count + 1 else count
  }

  function SaturatingDeadline(now: I64, seconds: I64): I64
    requires seconds >= 0
  {
    if now + seconds <= I64_MAX then now + seconds else I64_MAX
  }

  function Decide(clean: U8, dirty: U8, threshold: U8): DepositState {
    if dirty >= threshold then Rejected
    else if clean >= threshold then Approved
    else Pending
  }

  predicate HasAttested(d: Deposit, oracle: Address) {
    exists i :: 0 <= i < |d.attestations| && d.attestations[i].oracle == oracle
  }

  function AttestDeposit(v: Vault, d: Deposit, oracle: Address, verdict: Verdict, evidence: Key32, now: I64)
    : Result<Deposit, VaultError>
  {
    if d.state != Pending then Err(InvalidState)
    else
      :- Require(oracle in v.oracleSet, UnauthorizedOracle);
      :- Require(!HasAttested(d, oracle), DuplicateAttestation);
      :- Require(now < d.expireAt, AlreadyExpired);
      var clean := if verdict.Clean? then SaturatingInc(d.cleanCount) else d.cleanCount;
      var dirty := if verdict.Dirty? then SaturatingInc(d.dirtyCount) else d.dirtyCount;
      Ok(d.(attestations := d.attestations + [Attestation(oracle, verdict, now, evidence)],
            cleanCount := clean,
            dirtyCount := dirty,
            state := Decide(clean, dirty, v.minAttestations)))
  }

  // The state a refund starts from; an overdue deposit passes through Expired.
  function OpenForRefund(d: Deposit, now: I64): Result<Deposit, VaultError> {
    match d.state
    case Rejected => Ok(d)
    case Pending => if now >= d.expireAt then Ok(d.(state := Expired)) else Err(InvalidState)
    case Expired => Ok(d)
    case _ => Err(InvalidState)
  }

  function NewDeposit(vault: Address, depositor: Address, mint: Address, args: DepositArgs, now: I64): Deposit
    requires args.expireSeconds >= 0
  {
    Deposit(vault, args.stealth, args.ephemeral, args.viewTag, mint, args.amount, depositor,
            args.refundAddr, args.releaseAuthority, now, SaturatingDeadline(now, args.expireSeconds),
            Pending, [], 0, 0)
  }

  function CheckArgs(args: DepositArgs): Outcome<VaultError> {
    if args.amount == 0 then Fail(InvalidAmount)
    else if MIN_EXPIRE_SECONDS <= args.expireSeconds <= MAX_EXPIRE_SECONDS then Pass
    else Fail(InvalidExpiry)
  }

  function CheckThreshold(oracleSet: seq<Address>, minAttestations: U8): Outcome<VaultError> {
    if |oracleSet| > MAX_ORACLES then Fail(TooManyOracles)
    else if 1 <= minAttestations <= |oracleSet| then Pass
    else Fail(InvalidThreshold)
  }

  // -------------------------------------------------------------------------
  // The chain

  // Rent for the three account sizes the program creates.
  datatype Rent = Rent(vault: U64, deposit: U64, escrow: U64)

  datatype World = World(
    now: I64,
    lamports: Lamports,
    vaults: map<Address, Vault>,
    deposits: map<Address, Deposit>,
    tokens: Tokens,
    mints: set<Address>,
    rent: Rent)

  datatype Instruction =
    | InitializeVault(authority: Signer, oracleSet: seq<Address>, minAttestations: U8)
    | MakeDeposit(depositor: Signer, vault: Address, args: DepositArgs)
    | DepositToken(depositor: Signer, vault: Address, mint: Address, source: Address, args: DepositArgs)
    | Attest(oracle: Signer, vault: Address, deposit: Address, verdict: Verdict, evidence: Key32)
    | Release(releaseAuthority: Signer, vault: Address, deposit: Address, target: Address)
    | Refund(caller: Signer, vault: Address, deposit: Address, target: Address)
    | ReleaseToken(releaseAuthority: Signer, vault: Address, deposit: Address, mint: Address, target: Address)
    | RefundToken(caller: Signer, vault: Address, deposit: Address, mint: Address, target: Address)
      // transfers of other programs, signed by the owner of the source
    | SystemTransfer(from: Signer, to: Address, lamports: U64)
    | TokenTransfer(owner: Signer, source: Address, target: Address, tokens: U64)

  // Who has to sign for an instruction.
  function SignerOf(ix: Instruction): Signer {
    match ix
    case InitializeVault(authority, _, _) => authority
    case MakeDeposit(depositor, _, _) => depositor
    case DepositToken(depositor, _, _, _, _) => depositor
    case Attest(oracle, _, _, _, _) => oracle
    case Release(authority, _, _, _) => authority
    case Refund(caller, _, _, _) => caller
    case ReleaseToken(authority, _, _, _, _) => authority
    case RefundToken(caller, _, _, _, _) => caller
    case SystemTransfer(from, _, _) => from
    case TokenTransfer(owner, _, _, _) => owner
  }

  // Why value moved; a payout names the mint the deposit was made in.
  datatype Reason =
    | AccountRent
    | Funding(deposit: Address)
    | Payout(outcome: DepositState, deposit: Address, mint: Address)
    | External

  // `asset` is DEFAULT_KEY for lamports, otherwise the mint.
  datatype Movement = Movement(asset: Address, from: Address, to: Address, amount: U64, reason: Reason)

  // The state after an instruction and the value it moved, in order.
  datatype Effect = Effect(world: World, moves: seq<Movement>)

  function Transferred<T>(r: Result<T, LedgerError>): Result<T, VaultError> {
    match r
    case Ok(t) => Ok(t)
    case Err(e) => Err(Transfer(e))
  }

  function LoadVault(w: World, vault: Address): Result<Vault, VaultError> {
    if vault !in w.vaults then Err(AccountNotInitialized)
    else if vault != VaultPda(w.vaults[vault].authority) then Err(ConstraintSeeds)
    else Ok(w.vaults[vault])
  }

  // The deposit account must be derived from the vault that was passed in.
  function LoadDeposit(w: World, vault: Address, deposit: Address): Result<Deposit, VaultError> {
    if deposit !in w.deposits then Err(AccountNotInitialized)
    else
      var d := w.deposits[deposit];
      if deposit != DepositPda(vault, d.stealth, d.ephemeral) then Err(ConstraintSeeds)
      else Ok(d)
  }

  function LoadTokens(w: World, a: Address, mint: Address): Result<TokenAccount, VaultError> {
    if a !in w.tokens then Err(AccountNotInitialized)
    else if w.tokens[a].mint != mint then Err(ConstraintRaw)
    else Ok(w.tokens[a])
  }

  function CountDeposit(v: Vault): Vault {
    if v.depositCount < U64_MAX then v.(depositCount := v.depositCount + 1) else v
  }

  function ApplyInitializeVault(w: World, authority: Signer, oracleSet: seq<Address>, minAttestations: U8)
    : Result<Effect, VaultError>
  {
    var key := VaultPda(authority);
    :- Require(key !in w.vaults, AlreadyInUse);
    var rent := Shortfall(w.lamports, key, w.rent.vault);
    var paid :- Transferred(Move(w.lamports, authority, key, rent));
    :- CheckThreshold(oracleSet, minAttestations);
    Ok(Effect(w.(lamports := paid,
                 vaults := w.vaults[key := Vault(authority, oracleSet, minAttestations, false, 0)]),
              [Movement(DEFAULT_KEY, authority, key, rent, AccountRent)]))
  }

  // The account phase of both deposit instructions: the vault, the new deposit
  // account and its rent.
  function OpenDeposit(w: World, depositor: Signer, vault: Address, key: Address): Result<Lamports, VaultError> {
    var v :- LoadVault(w, vault);
    :- Require(!v.paused, Paused);
    :- Require(key !in w.deposits, AlreadyInUse);
    Transferred(Move(w.lamports, depositor, key, Shortfall(w.lamports, key, w.rent.deposit)))
  }

  function ApplyMakeDeposit(w: World, depositor: Signer, vault: Address, args: DepositArgs)
    : Result<Effect, VaultError>
  {
    var key := DepositPda(vault, args.stealth, args.ephemeral);
    var paid :- OpenDeposit(w, depositor, vault, key);
    :- CheckArgs(args);
    var funded :- Transferred(Move(paid, depositor, key, args.amount));
    Ok(Effect(w.(lamports := funded,
                 vaults := w.vaults[vault := CountDeposit(w.vaults[vault])],
                 deposits := w.deposits[key := NewDeposit(vault, depositor, DEFAULT_KEY, args, w.now)]),
              [Movement(DEFAULT_KEY, depositor, key, Shortfall(w.lamports, key, w.rent.deposit), AccountRent),
               Movement(DEFAULT_KEY, depositor, key, args.amount, Funding(key))]))
  }

  // The account phase of deposit_token: token constraints and the escrow's rent
  // besides; the lamports that result.
  function OpenTokenDeposit(w: World, depositor: Signer, vault: Address, key: Address, mint: Address, source: Address)
    : Result<Lamports, VaultError>
  {
    var paid :- OpenDeposit(w, depositor, vault, key);
    :- Require(mint in w.mints, AccountNotInitialized);
    var from :- LoadTokens(w, source, mint);
    :- Require(from.owner == depositor, ConstraintRaw);
    :- Require(EscrowPda(key) !in w.tokens, AlreadyInUse);
    Transferred(Move(paid, depositor, EscrowPda(key), Shortfall(paid, EscrowPda(key), w.rent.escrow)))
  }

  function ApplyDepositToken(w: World, depositor: Signer, vault: Address, mint: Address, source: Address,
                             args: DepositArgs)
    : Result<Effect, VaultError>
  {
    var key := DepositPda(vault, args.stealth, args.ephemeral);
    var escrow := EscrowPda(key);
    var housed :- OpenTokenDeposit(w, depositor, vault, key, mint, source);
    :- CheckArgs(args);
    var withEscrow := w.tokens[escrow := TokenAccount(mint, key, 0)];
    var funded :- Transferred(MoveTokens(withEscrow, source, escrow, args.amount));
    Ok(Effect(w.(lamports := housed,
                 tokens := funded,
                 vaults := w.vaults[vault := CountDeposit(w.vaults[vault])],
                 deposits := w.deposits[key := NewDeposit(vault, depositor, mint, args, w.now)]),
              [Movement(DEFAULT_KEY, depositor, key, Shortfall(w.lamports, key, w.rent.deposit), AccountRent),
               Movement(DEFAULT_KEY, depositor, escrow, Shortfall(w.lamports, escrow, w.rent.escrow), AccountRent),
               Movement(mint, source, escrow, args.amount, Funding(key))]))
  }

  function ApplyAttest(w: World, oracle: Signer, vault: Address, deposit: Address, verdict: Verdict, evidence: Key32)
    : Result<Effect, VaultError>
  {
    var v :- LoadVault(w, vault);
    :- Require(!v.paused, Paused);
    var d :- LoadDeposit(w, vault, deposit);
    var voted :- AttestDeposit(v, d, oracle, verdict, evidence, w.now);
    Ok(Effect(w.(deposits := w.deposits[deposit := voted]), []))
  }

  // The constraints both release instructions put on the deposit account.
  function ReleasableDeposit(w: World, authority: Signer, vault: Address, deposit: Address)
    : Result<Deposit, VaultError>
  {
    var _ :- LoadVault(w, vault);
    var d :- LoadDeposit(w, vault, deposit);
    :- Require(d.state == Approved, InvalidState);
    :- Require(d.releaseAuthority == authority, InvalidReleaseAuthority);
    Ok(d)
  }

  function ApplyRelease(w: World, authority: Signer, vault: Address, deposit: Address, target: Address)
    : Result<Effect, VaultError>
  {
    var d :- ReleasableDeposit(w, authority, vault, deposit);
    var paid :- Transferred(Move(w.lamports, deposit, target, d.amount));
    Ok(Effect(w.(lamports := paid, deposits := w.deposits[deposit := d.(state := Released)]),
              [Movement(DEFAULT_KEY, deposit, target, d.amount, Payout(Released, deposit, d.mint))]))
  }

  function ApplyRefund(w: World, caller: Signer, vault: Address, deposit: Address, target: Address)
    : Result<Effect, VaultError>
  {
    var _ :- LoadVault(w, vault);
    var d :- LoadDeposit(w, vault, deposit);
    var open :- OpenForRefund(d, w.now);
    :- Require(target == open.refundAddr, InvalidRefundAuthority);
    var paid :- Transferred(Move(w.lamports, deposit, target, d.amount));
    Ok(Effect(w.(lamports := paid, deposits := w.deposits[deposit := open.(state := Refunded)]),
              [Movement(DEFAULT_KEY, deposit, target, d.amount, Payout(Refunded, deposit, d.mint))]))
  }

  // The escrow account must be the deposit's own, hold `mint` and be owned by it.
  function LoadEscrow(w: World, deposit: Address, mint: Address): Result<TokenAccount, VaultError> {
    if mint !in w.mints then Err(AccountNotInitialized)
    else
      var e :- LoadTokens(w, EscrowPda(deposit), mint);
      if e.owner != deposit then Err(ConstraintRaw)
      else Ok(e)
  }

  // The account constraints of release_token and refund_token.
  function ReleasableToken(w: World, authority: Signer, vault: Address, deposit: Address, mint: Address,
                           target: Address)
    : Result<Deposit, VaultError>
  {
    var d :- ReleasableDeposit(w, authority, vault, deposit);
    :- Require(d.mint == mint, ConstraintRaw);
    var _ :- LoadEscrow(w, deposit, mint);
    var _ :- LoadTokens(w, target, mint);
    Ok(d)
  }

  function RefundableToken(w: World, vault: Address, deposit: Address, mint: Address, target: Address)
    : Result<Deposit, VaultError>
  {
    var _ :- LoadVault(w, vault);
    var d :- LoadDeposit(w, vault, deposit);
    :- Require(d.mint == mint, ConstraintRaw);
    var _ :- LoadEscrow(w, deposit, mint);
    var t :- LoadTokens(w, target, mint);
    :- Require(t.owner == d.refundAddr, ConstraintRaw);
    Ok(d)
  }

  function ApplyReleaseToken(w: World, authority: Signer, vault: Address, deposit: Address, mint: Address,
                             target: Address)
    : Result<Effect, VaultError>
  {
    var d :- ReleasableToken(w, authority, vault, deposit, mint, target);
    var paid :- Transferred(MoveTokens(w.tokens, EscrowPda(deposit), target, d.amount));
    Ok(Effect(w.(tokens := paid, deposits := w.deposits[deposit := d.(state := Released)]),
              [Movement(mint, EscrowPda(deposit), target, d.amount, Payout(Released, deposit, d.mint))]))
  }

  function ApplyRefundToken(w: World, caller: Signer, vault: Address, deposit: Address, mint: Address,
                            target: Address)
    : Result<Effect, VaultError>
  {
    var d :- RefundableToken(w, vault, deposit, mint, target);
    var open :- OpenForRefund(d, w.now);
    var paid :- Transferred(MoveTokens(w.tokens, EscrowPda(deposit), target, d.amount));
    Ok(Effect(w.(tokens := paid, deposits := w.deposits[deposit := open.(state := Refunded)]),
              [Movement(mint, EscrowPda(deposit), target, d.amount, Payout(Refunded, deposit, d.mint))]))
  }

  function ApplySystemTransfer(w: World, from: Signer, to: Address, lamports: U64): Result<Effect, VaultError> {
    var paid :- Transferred(Move(w.lamports, from, to, lamports));
    Ok(Effect(w.(lamports := paid), [Movement(DEFAULT_KEY, from, to, lamports, External)]))
  }

  function ApplyTokenTransfer(w: World, owner: Signer, source: Address, target: Address, tokens: U64)
    : Result<Effect, VaultError>
  {
    if source !in w.tokens then Err(AccountNotInitialized)
    else if w.tokens[source].owner != owner then Err(ConstraintRaw)
    else
      var _ :- LoadTokens(w, target, w.tokens[source].mint);
      var paid :- Transferred(MoveTokens(w.tokens, source, target, tokens));
      Ok(Effect(w.(tokens := paid), [Movement(w.tokens[source].mint, source, target, tokens, External)]))
  }

  function Apply(w: World, ix: Instruction): Result<Effect, VaultError> {
    match ix
    case InitializeVault(authority, oracleSet, m) => ApplyInitializeVault(w, authority, oracleSet, m)
    case MakeDeposit(depositor, vault, args) => ApplyMakeDeposit(w, depositor, vault, args)
    case DepositToken(depositor, vault, mint, source, args) =>
      ApplyDepositToken(w, depositor, vault, mint, source, args)
    case Attest(oracle, vault, deposit, verdict, evidence) =>
      ApplyAttest(w, oracle, vault, deposit, verdict, evidence)
    case Release(authority, vault, deposit, target) => ApplyRelease(w, authority, vault, deposit, target)
    case Refund(caller, vault, deposit, target) => ApplyRefund(w, caller, vault, deposit, target)
    case ReleaseToken(authority, vault, deposit, mint, target) =>
      ApplyReleaseToken(w, authority, vault, deposit, mint, target)
    case RefundToken(caller, vault, deposit, mint, target) =>
      ApplyRefundToken(w, caller, vault, deposit, mint, target)
    case SystemTransfer(from, to, lamports) => ApplySystemTransfer(w, from, to, lamports)
    case TokenTransfer(owner, source, target, tokens) => ApplyTokenTransfer(w, owner, source, target, tokens)
  }

  // -------------------------------------------------------------------------
  // Runs

  datatype Step = Tick(seconds: nat) | Call(ix: Instruction)

  // Time only moves forward; an instruction that fails changes nothing.
  function Advance(w: World, step: Step): Effect {
    match step
    case Tick(seconds) => Effect(w.(now := if w.now + seconds <= I64_MAX then w.now + seconds else I64_MAX), [])
    case Call(ix) =>
      match Apply(w, ix)
      case Ok(effect) => effect
      case Err(_) => Effect(w, [])
  }

  function Exec(w: World, steps: seq<Step>): World {
    if steps == [] then w
    else Advance(Exec(w, steps[..|steps| - 1]), steps[|steps| - 1]).world
  }

  // Every movement of value in a run, in order.
  function Log(w: World, steps: seq<Step>): seq<Movement> {
    if steps == [] then []
    else
      var before := steps[..|steps| - 1];
      Log(w, before) + Advance(Exec(w, before), steps[|steps| - 1]).moves
  }

  // A chain on which the program has not run yet.
  ghost predicate Genesis(w: World) {
    && w.vaults == map[]
    && w.deposits == map[]
    && DEFAULT_KEY !in w.mints
    && (forall a :: a in w.tokens ==> w.tokens[a].mint in w.mints)
    && TotalLamports(w.lamports) <= U64_MAX
  }

  predicate Settled(d: Deposit) {
    d.state == Released || d.state == Refunded
  }

  predicate IsSol(d: Deposit) {
    d.mint == DEFAULT_KEY
  }
}
