// The instruction handlers in the form the program runs them: they update the
// accounts they were handed, one field at a time.
module Handlers {
  import opened Wrappers
  import opened Keys
  import opened Ledger
  import opened Vault

  // An account's lamports. Two parameters of one instruction may be one object.
  class AccountInfo {
    var lamports: U64

    constructor (lamports: U64)
      ensures this.lamports == lamports
    {
      this.lamports := lamports;
    }
  }

  class TokenInfo {
    const mint: Address
    const owner: Address
    var amount: U64

    constructor (t: TokenAccount)
      ensures Data() == t
    {
      mint, owner, amount := t.mint, t.owner, t.amount;
    }

    function Data(): TokenAccount
      reads this
    {
      TokenAccount(mint, owner, amount)
    }
  }

  class VaultAccount {
    var authority: Address
    var oracleSet: seq<Address>
    var minAttestations: U8
    var paused: bool
    var depositCount: U64

    constructor (v: Vault)
      ensures Data() == v
    {
      authority, oracleSet, minAttestations := v.authority, v.oracleSet, v.minAttestations;
      paused, depositCount := v.paused, v.depositCount;
    }

    function Data(): Vault
      reads this
    {
      Vault(authority, oracleSet, minAttestations, paused, depositCount)
    }
  }

  class DepositAccount {
    const info: AccountInfo
    var vault: Address
    var stealth: Key32
    var ephemeral: Key32
    var viewTag: Byte
    var mint: Address
    var amount: U64
    var depositor: Address
    var refundAddr: Address
    var releaseAuthority: Address
    var createdAt: I64
    var expireAt: I64
    var state: DepositState
    var attestations: seq<Attestation>
    var cleanCount: U8
    var dirtyCount: U8

    constructor (info: AccountInfo, d: Deposit)
      ensures this.info == info && Data() == d
    {
      this.info := info;
      vault, stealth, ephemeral, viewTag, mint, amount := d.vault, d.stealth, d.ephemeral, d.viewTag, d.mint, d.amount;
      depositor, refundAddr, releaseAuthority := d.depositor, d.refundAddr, d.releaseAuthority;
      createdAt, expireAt, state := d.createdAt, d.expireAt, d.state;
      attestations, cleanCount, dirtyCount := d.attestations, d.cleanCount, d.dirtyCount;
    }

    function Data(): Deposit
      reads this
    {
      Deposit(vault, stealth, ephemeral, viewTag, mint, amount, depositor, refundAddr, releaseAuthority,
              createdAt, expireAt, state, attestations, cleanCount, dirtyCount)
    }
  }

  method InitializeVaultHandler(vault: VaultAccount, authority: Address, oracleSet: seq<Address>, minAttestations: U8)
    returns (r: Outcome<VaultError>)
    modifies vault
    ensures r == CheckThreshold(oracleSet, minAttestations)
    ensures r.Pass? ==> vault.Data() == Vault(authority, oracleSet, minAttestations, false, 0)
  {
    if |oracleSet| > MAX_ORACLES {
      return Fail(TooManyOracles);
    }
    if !(minAttestations >= 1 && minAttestations <= |oracleSet|) {
      return Fail(InvalidThreshold);
    }
    vault.authority := authority;
    vault.oracleSet := oracleSet;
    vault.minAttestations := minAttestations;
    vault.paused := false;
    vault.depositCount := 0;
    return Pass;
  }

  // A transfer by the system program, and by a handler that writes balances.
  method TransferLamports(from: AccountInfo, to: AccountInfo, amount: U64) returns (r: Outcome<VaultError>)
    modifies from, to
    ensures r == (if old(from.lamports) < amount then Fail(Transfer(InsufficientFunds))
                  else if from != to && old(to.lamports) + amount > U64_MAX then Fail(Transfer(ArithmeticOverflow))
                  else Pass)
    ensures r.Pass? && from != to ==>
              from.lamports == old(from.lamports) - amount && to.lamports == old(to.lamports) + amount
    ensures r.Pass? && from == to ==> from.lamports == old(from.lamports)
  {
    var current := from.lamports;
    if current < amount {
      return Fail(Transfer(InsufficientFunds));
    }
    from.lamports := current - amount;
    if to.lamports + amount > U64_MAX {
      return Fail(Transfer(ArithmeticOverflow));
    }
    to.lamports := to.lamports + amount;
    return Pass;
  }

  method TransferChecked(from: TokenInfo, to: TokenInfo, amount: U64) returns (r: Outcome<VaultError>)
    modifies from, to
    ensures r == (if old(from.amount) < amount then Fail(Transfer(InsufficientFunds))
                  else if from != to && old(to.amount) + amount > U64_MAX then Fail(Transfer(ArithmeticOverflow))
                  else Pass)
    ensures r.Pass? && from != to ==> from.amount == old(from.amount) - amount && to.amount == old(to.amount) + amount
    ensures r.Pass? && from == to ==> from.amount == old(from.amount)
  {
    if from.amount < amount {
      return Fail(Transfer(InsufficientFunds));
    }
    from.amount := from.amount - amount;
    if to.amount + amount > U64_MAX {
      return Fail(Transfer(ArithmeticOverflow));
    }
    to.amount := to.amount + amount;
    return Pass;
  }

  // The part deposit.rs and deposit_token.rs share: fill every field.
  method FillDeposit(deposit: DepositAccount, vault: Address, depositor: Address, mint: Address, args: DepositArgs,
                     now: I64)
    requires args.expireSeconds >= 0
    modifies deposit
    ensures deposit.Data() == NewDeposit(vault, depositor, mint, args, now)
  {
    deposit.vault := vault;
    deposit.stealth := args.stealth;
    deposit.ephemeral := args.ephemeral;
    deposit.viewTag := args.viewTag;
    deposit.mint := mint;
    deposit.amount := args.amount;
    deposit.depositor := depositor;
    deposit.refundAddr := args.refundAddr;
    deposit.releaseAuthority := args.releaseAuthority;
    deposit.createdAt := now;
    deposit.expireAt := SaturatingDeadline(now, args.expireSeconds);
    deposit.state := Pending;
    deposit.attestations := [];
    deposit.cleanCount := 0;
    deposit.dirtyCount := 0;
  }

  method MakeDepositHandler(vault: VaultAccount, vaultKey: Address, deposit: DepositAccount, depositorKey: Address,
                            depositor: AccountInfo, args: DepositArgs, now: I64)
    returns (r: Outcome<VaultError>)
    requires depositor != deposit.info
    modifies vault, deposit, deposit.info, depositor
    ensures r == (if CheckArgs(args).Fail? then CheckArgs(args)
                  else if old(depositor.lamports) < args.amount then Fail(Transfer(InsufficientFunds))
                  else if old(deposit.info.lamports) + args.amount > U64_MAX then Fail(Transfer(ArithmeticOverflow))
                  else Pass)
    ensures r.Pass? ==>
              && args.expireSeconds >= 0
              && deposit.Data() == NewDeposit(vaultKey, depositorKey, DEFAULT_KEY, args, now)
              && vault.Data() == CountDeposit(old(vault.Data()))
              && depositor.lamports == old(depositor.lamports) - args.amount
              && deposit.info.lamports == old(deposit.info.lamports) + args.amount
  {
    if !(args.amount > 0) {
      return Fail(InvalidAmount);
    }
    if !(args.expireSeconds >= MIN_EXPIRE_SECONDS && args.expireSeconds <= MAX_EXPIRE_SECONDS) {
      return Fail(InvalidExpiry);
    }
    FillDeposit(deposit, vaultKey, depositorKey, DEFAULT_KEY, args, now);
    r := TransferLamports(depositor, deposit.info, args.amount);
    if r.Pass? {
      vault.depositCount := if vault.depositCount < U64_MAX then vault.depositCount + 1 else U64_MAX;
    }
  }

  method DepositTokenHandler(vault: VaultAccount, vaultKey: Address, deposit: DepositAccount, depositorKey: Address,
                             mint: Address, source: TokenInfo, escrow: TokenInfo, args: DepositArgs, now: I64)
    returns (r: Outcome<VaultError>)
    requires source != escrow
    modifies vault, deposit, source, escrow
    ensures r == (if CheckArgs(args).Fail? then CheckArgs(args)
                  else if old(source.amount) < args.amount then Fail(Transfer(InsufficientFunds))
                  else if old(escrow.amount) + args.amount > U64_MAX then Fail(Transfer(ArithmeticOverflow))
                  else Pass)
    ensures r.Pass? ==>
              && args.expireSeconds >= 0
              && deposit.Data() == NewDeposit(vaultKey, depositorKey, mint, args, now)
              && vault.Data() == CountDeposit(old(vault.Data()))
              && source.amount == old(source.amount) - args.amount
              && escrow.amount == old(escrow.amount) + args.amount
  {
    if !(args.amount > 0) {
      return Fail(InvalidAmount);
    }
    if !(args.expireSeconds >= MIN_EXPIRE_SECONDS && args.expireSeconds <= MAX_EXPIRE_SECONDS) {
      return Fail(InvalidExpiry);
    }
    FillDeposit(deposit, vaultKey, depositorKey, mint, args, now);
    r := TransferChecked(source, escrow, args.amount);
    if r.Pass? {
      vault.depositCount := if vault.depositCount < U64_MAX then vault.depositCount + 1 else U64_MAX;
    }
  }

  method AttestHandler(vault: VaultAccount, deposit: DepositAccount, oracle: Address, verdict: Verdict,
                       evidence: Key32, now: I64)
    returns (r: Outcome<VaultError>)
    modifies deposit
    ensures match AttestDeposit(vault.Data(), old(deposit.Data()), oracle, verdict, evidence, now)
            case Ok(d) => r == Pass && deposit.Data() == d
            case Err(e) => r == Fail(e) && deposit.Data() == old(deposit.Data())
  {
    if deposit.state != Pending {
      return Fail(InvalidState);
    }
    if oracle !in vault.oracleSet {
      return Fail(UnauthorizedOracle);
    }
    var i := 0;
    while i < |deposit.attestations|
      invariant 0 <= i <= |deposit.attestations|
      invariant forall j :: 0 <= j < i ==> deposit.attestations[j].oracle != oracle
    {
      if deposit.attestations[i].oracle == oracle {
        assert HasAttested(deposit.Data(), oracle);
        return Fail(DuplicateAttestation);
      }
      i := i + 1;
    }
    assert !HasAttested(deposit.Data(), oracle);
    if !(now < deposit.expireAt) {
      return Fail(AlreadyExpired);
    }
    deposit.attestations := deposit.attestations + [Attestation(oracle, verdict, now, evidence)];
    match verdict {
      case Clean => deposit.cleanCount := SaturatingInc(deposit.cleanCount);
      case Dirty => deposit.dirtyCount := SaturatingInc(deposit.dirtyCount);
    }
    var threshold := vault.minAttestations;
    if deposit.dirtyCount >= threshold {
      deposit.state := Rejected;
    } else if deposit.cleanCount >= threshold {
      deposit.state := Approved;
    }
    return Pass;
  }

  method ReleaseHandler(deposit: DepositAccount, target: AccountInfo) returns (r: Outcome<VaultError>)
    modifies deposit, deposit.info, target
    ensures var amount := old(deposit.amount);
            r == (if old(deposit.info.lamports) < amount then Fail(Transfer(InsufficientFunds))
                  else if target != deposit.info && old(target.lamports) + amount > U64_MAX
                  then Fail(Transfer(ArithmeticOverflow))
                  else Pass)
    ensures r.Pass? ==> deposit.Data() == old(deposit.Data()).(state := Released)
    ensures r.Pass? && target != deposit.info ==>
              && deposit.info.lamports == old(deposit.info.lamports) - old(deposit.amount)
              && target.lamports == old(target.lamports) + old(deposit.amount)
    ensures r.Pass? && target == deposit.info ==> target.lamports == old(target.lamports)
  {
    r := TransferLamports(deposit.info, target, deposit.amount);
    if r.Pass? {
      deposit.state := Released;
    }
  }

  // Opens an overdue deposit for refund; the transient state is overwritten or
  // discarded before anybody can read it.
  method ExpireIfDue(deposit: DepositAccount, now: I64) returns (allowed: bool)
    modifies deposit
    ensures match OpenForRefund(old(deposit.Data()), now)
            case Ok(d) => allowed && deposit.Data() == d
            case Err(e) => !allowed && e == InvalidState && deposit.Data() == old(deposit.Data())
  {
    match deposit.state {
      case Rejected => allowed := true;
      case Pending =>
        allowed := now >= deposit.expireAt;
        if allowed {
          deposit.state := Expired;
        }
      case Expired => allowed := true;
      case _ => allowed := false;
    }
  }

  method RefundHandler(deposit: DepositAccount, targetKey: Address, target: AccountInfo, now: I64)
    returns (r: Outcome<VaultError>)
    modifies deposit, deposit.info, target
    ensures var d := old(deposit.Data());
            r == (if OpenForRefund(d, now).Err? then Fail(InvalidState)
                  else if targetKey != d.refundAddr then Fail(InvalidRefundAuthority)
                  else if old(deposit.info.lamports) < d.amount then Fail(Transfer(InsufficientFunds))
                  else if target != deposit.info && old(target.lamports) + d.amount > U64_MAX
                  then Fail(Transfer(ArithmeticOverflow))
                  else Pass)
    ensures r.Pass? ==> deposit.Data() == old(deposit.Data()).(state := Refunded)
    ensures r.Pass? && target != deposit.info ==>
              && deposit.info.lamports == old(deposit.info.lamports) - old(deposit.amount)
              && target.lamports == old(target.lamports) + old(deposit.amount)
    ensures r.Pass? && target == deposit.info ==> target.lamports == old(target.lamports)
  {
    var allowed := ExpireIfDue(deposit, now);
    if !allowed {
      return Fail(InvalidState);
    }
    if targetKey != deposit.refundAddr {
      return Fail(InvalidRefundAuthority);
    }
    r := TransferLamports(deposit.info, target, deposit.amount);
    if r.Pass? {
      deposit.state := Refunded;
    }
  }

  method ReleaseTokenHandler(deposit: DepositAccount, escrow: TokenInfo, target: TokenInfo)
    returns (r: Outcome<VaultError>)
    modifies deposit, escrow, target
    ensures r == (if old(escrow.amount) < old(deposit.amount) then Fail(Transfer(InsufficientFunds))
                  else if target != escrow && old(target.amount) + old(deposit.amount) > U64_MAX
                  then Fail(Transfer(ArithmeticOverflow))
                  else Pass)
    ensures r.Pass? ==> deposit.Data() == old(deposit.Data()).(state := Released)
    ensures r.Pass? && target != escrow ==>
              && escrow.amount == old(escrow.amount) - old(deposit.amount)
              && target.amount == old(target.amount) + old(deposit.amount)
    ensures r.Pass? && target == escrow ==> target.amount == old(target.amount)
  {
    r := TransferChecked(escrow, target, deposit.amount);
    if r.Pass? {
      deposit.state := Released;
    }
  }

  method RefundTokenHandler(deposit: DepositAccount, escrow: TokenInfo, target: TokenInfo, now: I64)
    returns (r: Outcome<VaultError>)
    modifies deposit, escrow, target
    ensures var d := old(deposit.Data());
            r == (if OpenForRefund(d, now).Err? then Fail(InvalidState)
                  else if old(escrow.amount) < d.amount then Fail(Transfer(InsufficientFunds))
                  else if target != escrow && old(target.amount) + d.amount > U64_MAX
                  then Fail(Transfer(ArithmeticOverflow))
                  else Pass)
    ensures r.Pass? ==> deposit.Data() == old(deposit.Data()).(state := Refunded)
    ensures r.Pass? && target != escrow ==>
              && escrow.amount == old(escrow.amount) - old(deposit.amount)
              && target.amount == old(target.amount) + old(deposit.amount)
    ensures r.Pass? && target == escrow ==> target.amount == old(target.amount)
  {
    var allowed := ExpireIfDue(deposit, now);
    if !allowed {
      return Fail(InvalidState);
    }
    r := TransferChecked(escrow, target, deposit.amount);
    if r.Pass? {
      deposit.state := Refunded;
    }
  }
}
