// The runtime around the handlers: it loads the accounts of an instruction,
// checks their constraints, runs the handler on copies and commits the copies
// only if the handler succeeded.
module Bank {
  import opened Wrappers
  import opened Keys
  import opened Ledger
  import opened Vault
  import opened Handlers

  // One instruction, all or nothing.
  ghost predicate Atomic(before: World, ix: Instruction, after: World, r: Outcome<VaultError>) {
    match Apply(before, ix)
    case Ok(effect) => r == Pass && after == effect.world
    case Err(e) => r == Fail(e) && after == before
  }

  // Two views of one account must be one object.
  method LoadPair(l: Lamports, a: Address, b: Address) returns (x: AccountInfo, y: AccountInfo)
    ensures fresh(x) && fresh(y) && (x == y <==> a == b)
    ensures x.lamports == Balance(l, a) && y.lamports == Balance(l, b)
  {
    x := new AccountInfo(Balance(l, a));
    if a == b {
      y := x;
    } else {
      y := new AccountInfo(Balance(l, b));
    }
  }

  method LoadTokenPair(t: Tokens, a: Address, b: Address) returns (x: TokenInfo, y: TokenInfo)
    requires a in t && b in t
    ensures fresh(x) && fresh(y) && (x == y <==> a == b)
    ensures x.Data() == t[a] && y.Data() == t[b]
  {
    x := new TokenInfo(t[a]);
    if a == b {
      y := x;
    } else {
      y := new TokenInfo(t[b]);
    }
  }

  // The two balances a handler leaves, the second written last, are the
  // transfer of the specification; one account may be both.
  lemma WroteLamports(l: Lamports, from: Address, to: Address, amount: U64, x: U64, y: U64)
    requires Move(l, from, to, amount).Ok?
    requires if from == to then x == y == Balance(l, from)
             else x == Balance(l, from) - amount && y == Balance(l, to) + amount
    ensures l[from := x][to := y] == Move(l, from, to, amount).value
  {
  }

  lemma WroteTokens(t: Tokens, from: Address, to: Address, amount: U64, x: TokenAccount, y: TokenAccount)
    requires from in t && to in t && MoveTokens(t, from, to, amount).Ok?
    requires if from == to then x == y == t[from]
             else x == t[from].(amount := x.amount) && x.amount == t[from].amount - amount
                  && y == t[to].(amount := y.amount) && y.amount == t[to].amount + amount
    ensures t[from := x][to := y] == MoveTokens(t, from, to, amount).value
  {
  }

  // How a transfer between the two accounts ends.
  lemma TokenOutcome(t: Tokens, from: Address, to: Address, amount: U64)
    requires from in t && to in t
    ensures var r := MoveTokens(t, from, to, amount);
            if t[from].amount < amount then r == Err(InsufficientFunds)
            else if from != to && t[to].amount + amount > U64_MAX then r == Err(ArithmeticOverflow)
            else r.Ok?
  {
  }

  // A freshly opened escrow, funded from another account.
  lemma OpenedAndFunded(t: Tokens, source: Address, escrow: Address, empty: TokenAccount, amount: U64,
                        x: TokenAccount, y: TokenAccount)
    requires source in t && escrow !in t && empty.amount == 0 && amount <= t[source].amount
    requires x == t[source].(amount := t[source].amount - amount) && y == empty.(amount := amount)
    ensures MoveTokens(t[escrow := empty], source, escrow, amount) == Ok(t[source := x][escrow := y])
  {
    WroteTokens(t[escrow := empty], source, escrow, amount, x, y);
    assert t[escrow := empty][source := x][escrow := y] == t[source := x][escrow := y];
  }

  // The rent `init` takes from the payer.
  method ChargeRent(l: Lamports, payer: Address, key: Address, rent: U64) returns (r: Result<Lamports, VaultError>)
    ensures r == Transferred(Move(l, payer, key, Shortfall(l, key, rent)))
  {
    var from, to := LoadPair(l, payer, key);
    var paid := TransferLamports(from, to, Shortfall(l, key, rent));
    if paid.Fail? {
      return Err(paid.error);
    }
    WroteLamports(l, payer, key, Shortfall(l, key, rent), from.lamports, to.lamports);
    return Ok(l[payer := from.lamports][key := to.lamports]);
  }

  class Bank {
    var world: World

    constructor (world: World)
      ensures this.world == world
    {
      this.world := world;
    }

    method InitializeVault(authority: Signer, oracleSet: seq<Address>, minAttestations: U8)
      returns (r: Outcome<VaultError>)
      modifies this
      ensures Atomic(old(world), Instruction.InitializeVault(authority, oracleSet, minAttestations), world, r)
    {
      var key := VaultPda(authority);
      if key in world.vaults {
        return Fail(AlreadyInUse);
      }
      var paid := ChargeRent(world.lamports, authority, key, world.rent.vault);
      if paid.Err? {
        return Fail(paid.error);
      }
      var vault := new VaultAccount(Vault(DEFAULT_KEY, [], 0, false, 0));
      r := InitializeVaultHandler(vault, authority, oracleSet, minAttestations);
      if r.Pass? {
        world := world.(lamports := paid.value, vaults := world.vaults[key := vault.Data()]);
      }
    }

    // The account phase both deposit instructions begin with.
    method OpenAccount(depositor: Signer, vaultKey: Address, key: Address) returns (r: Result<Lamports, VaultError>)
      ensures r == OpenDeposit(world, depositor, vaultKey, key)
    {
      var loaded := LoadVault(world, vaultKey);
      if loaded.Err? {
        return Err(loaded.error);
      }
      if loaded.value.paused {
        return Err(Paused);
      }
      if key in world.deposits {
        return Err(AlreadyInUse);
      }
      r := ChargeRent(world.lamports, depositor, key, world.rent.deposit);
    }

    method MakeDeposit(depositor: Signer, vaultKey: Address, args: DepositArgs) returns (r: Outcome<VaultError>)
      modifies this
      ensures Atomic(old(world), Instruction.MakeDeposit(depositor, vaultKey, args), world, r)
    {
      var key := DepositPda(vaultKey, args.stealth, args.ephemeral);
      var paid := OpenAccount(depositor, vaultKey, key);
      if paid.Err? {
        return Fail(paid.error);
      }
      var payer, info := LoadPair(paid.value, depositor, key);
      var vault := new VaultAccount(world.vaults[vaultKey]);
      var deposit := new DepositAccount(info, Blank());
      r := MakeDepositHandler(vault, vaultKey, deposit, depositor, payer, args, world.now);
      if r.Pass? {
        WroteLamports(paid.value, depositor, key, args.amount, payer.lamports, info.lamports);
        world := world.(lamports := paid.value[depositor := payer.lamports][key := info.lamports],
                        vaults := world.vaults[vaultKey := vault.Data()],
                        deposits := world.deposits[key := deposit.Data()]);
      }
    }

    method OpenTokenAccounts(depositor: Signer, vaultKey: Address, key: Address, mint: Address, sourceKey: Address)
      returns (r: Result<Lamports, VaultError>)
      ensures r == OpenTokenDeposit(world, depositor, vaultKey, key, mint, sourceKey)
    {
      var paid := OpenAccount(depositor, vaultKey, key);
      if paid.Err? {
        return paid;
      }
      if mint !in world.mints {
        return Err(AccountNotInitialized);
      }
      var from := LoadTokens(world, sourceKey, mint);
      if from.Err? {
        return Err(from.error);
      }
      if from.value.owner != depositor {
        return Err(ConstraintRaw);
      }
      if EscrowPda(key) in world.tokens {
        return Err(AlreadyInUse);
      }
      r := ChargeRent(paid.value, depositor, EscrowPda(key), world.rent.escrow);
    }

    method DepositToken(depositor: Signer, vaultKey: Address, mint: Address, sourceKey: Address, args: DepositArgs)
      returns (r: Outcome<VaultError>)
      modifies this
      ensures Atomic(old(world), Instruction.DepositToken(depositor, vaultKey, mint, sourceKey, args), world, r)
    {
      var key := DepositPda(vaultKey, args.stealth, args.ephemeral);
      var housed := OpenTokenAccounts(depositor, vaultKey, key, mint, sourceKey);
      if housed.Err? {
        return Fail(housed.error);
      }
      var escrowKey := EscrowPda(key);
      var vault := new VaultAccount(world.vaults[vaultKey]);
      var info := new AccountInfo(Balance(housed.value, key));
      var deposit := new DepositAccount(info, Blank());
      var source := new TokenInfo(world.tokens[sourceKey]);
      var escrow := new TokenInfo(TokenAccount(mint, key, 0));
      r := DepositTokenHandler(vault, vaultKey, deposit, depositor, mint, source, escrow, args, world.now);
      if r.Pass? {
        OpenedAndFunded(world.tokens, sourceKey, escrowKey, TokenAccount(mint, key, 0), args.amount,
                        source.Data(), escrow.Data());
        world := world.(lamports := housed.value,
                        tokens := world.tokens[sourceKey := source.Data()][escrowKey := escrow.Data()],
                        vaults := world.vaults[vaultKey := vault.Data()],
                        deposits := world.deposits[key := deposit.Data()]);
      }
    }

    method Attest(oracle: Signer, vaultKey: Address, depositKey: Address, verdict: Verdict, evidence: Key32)
      returns (r: Outcome<VaultError>)
      modifies this
      ensures Atomic(old(world), Instruction.Attest(oracle, vaultKey, depositKey, verdict, evidence), world, r)
    {
      var loaded := LoadVault(world, vaultKey);
      if loaded.Err? {
        return Fail(loaded.error);
      }
      if loaded.value.paused {
        return Fail(Paused);
      }
      var d := LoadDeposit(world, vaultKey, depositKey);
      if d.Err? {
        return Fail(d.error);
      }
      var vault := new VaultAccount(loaded.value);
      var info := new AccountInfo(Balance(world.lamports, depositKey));
      var deposit := new DepositAccount(info, d.value);
      r := AttestHandler(vault, deposit, oracle, verdict, evidence, world.now);
      if r.Pass? {
        world := world.(deposits := world.deposits[depositKey := deposit.Data()]);
      }
    }

    // The constraints on the deposit account, in the order they are declared.
    method CheckReleasable(authority: Signer, vaultKey: Address, depositKey: Address)
      returns (r: Result<Deposit, VaultError>)
      ensures r == ReleasableDeposit(world, authority, vaultKey, depositKey)
    {
      var loaded := LoadVault(world, vaultKey);
      if loaded.Err? {
        return Err(loaded.error);
      }
      r := LoadDeposit(world, vaultKey, depositKey);
      if r.Err? {
        return;
      }
      if r.value.state != Approved {
        return Err(InvalidState);
      }
      if r.value.releaseAuthority != authority {
        return Err(InvalidReleaseAuthority);
      }
    }

    // The escrow and target accounts of both token exits.
    method CheckEscrow(depositKey: Address, mint: Address) returns (r: Outcome<VaultError>)
      ensures match LoadEscrow(world, depositKey, mint)
              case Ok(_) => r == Pass
              case Err(e) => r == Fail(e)
    {
      if mint !in world.mints {
        return Fail(AccountNotInitialized);
      }
      var escrow := LoadTokens(world, EscrowPda(depositKey), mint);
      if escrow.Err? {
        return Fail(escrow.error);
      }
      if escrow.value.owner != depositKey {
        return Fail(ConstraintRaw);
      }
      return Pass;
    }

    method CheckReleasableToken(authority: Signer, vaultKey: Address, depositKey: Address, mint: Address,
                                targetKey: Address)
      returns (r: Result<Deposit, VaultError>)
      ensures r == ReleasableToken(world, authority, vaultKey, depositKey, mint, targetKey)
    {
      r := CheckReleasable(authority, vaultKey, depositKey);
      if r.Err? {
        return;
      }
      if r.value.mint != mint {
        return Err(ConstraintRaw);
      }
      var escrow := CheckEscrow(depositKey, mint);
      if escrow.Fail? {
        return Err(escrow.error);
      }
      var target := LoadTokens(world, targetKey, mint);
      if target.Err? {
        return Err(target.error);
      }
    }

    method CheckRefundableToken(vaultKey: Address, depositKey: Address, mint: Address, targetKey: Address)
      returns (r: Result<Deposit, VaultError>)
      ensures r == RefundableToken(world, vaultKey, depositKey, mint, targetKey)
    {
      var loaded := LoadVault(world, vaultKey);
      if loaded.Err? {
        return Err(loaded.error);
      }
      r := LoadDeposit(world, vaultKey, depositKey);
      if r.Err? {
        return;
      }
      if r.value.mint != mint {
        return Err(ConstraintRaw);
      }
      var escrow := CheckEscrow(depositKey, mint);
      if escrow.Fail? {
        return Err(escrow.error);
      }
      var target := LoadTokens(world, targetKey, mint);
      if target.Err? {
        return Err(target.error);
      }
      if target.value.owner != r.value.refundAddr {
        return Err(ConstraintRaw);
      }
    }

    method Release(authority: Signer, vaultKey: Address, depositKey: Address, targetKey: Address)
      returns (r: Outcome<VaultError>)
      modifies this
      ensures Atomic(old(world), Instruction.Release(authority, vaultKey, depositKey, targetKey), world, r)
    {
      var d := CheckReleasable(authority, vaultKey, depositKey);
      if d.Err? {
        return Fail(d.error);
      }
      var info, target := LoadPair(world.lamports, depositKey, targetKey);
      var deposit := new DepositAccount(info, d.value);
      r := ReleaseHandler(deposit, target);
      if r.Pass? {
        WroteLamports(world.lamports, depositKey, targetKey, d.value.amount, info.lamports, target.lamports);
        world := world.(lamports := world.lamports[depositKey := info.lamports][targetKey := target.lamports],
                        deposits := world.deposits[depositKey := deposit.Data()]);
      }
    }

    method Refund(caller: Signer, vaultKey: Address, depositKey: Address, targetKey: Address)
      returns (r: Outcome<VaultError>)
      modifies this
      ensures Atomic(old(world), Instruction.Refund(caller, vaultKey, depositKey, targetKey), world, r)
    {
      var loaded := LoadVault(world, vaultKey);
      if loaded.Err? {
        return Fail(loaded.error);
      }
      var d := LoadDeposit(world, vaultKey, depositKey);
      if d.Err? {
        return Fail(d.error);
      }
      var info, target := LoadPair(world.lamports, depositKey, targetKey);
      var deposit := new DepositAccount(info, d.value);
      r := RefundHandler(deposit, targetKey, target, world.now);
      if r.Pass? {
        WroteLamports(world.lamports, depositKey, targetKey, d.value.amount, info.lamports, target.lamports);
        world := world.(lamports := world.lamports[depositKey := info.lamports][targetKey := target.lamports],
                        deposits := world.deposits[depositKey := deposit.Data()]);
      }
    }

    method ReleaseToken(authority: Signer, vaultKey: Address, depositKey: Address, mint: Address, targetKey: Address)
      returns (r: Outcome<VaultError>)
      modifies this
      ensures Atomic(old(world), Instruction.ReleaseToken(authority, vaultKey, depositKey, mint, targetKey), world, r)
    {
      var d := CheckReleasableToken(authority, vaultKey, depositKey, mint, targetKey);
      if d.Err? {
        return Fail(d.error);
      }
      var escrowKey := EscrowPda(depositKey);
      var escrow, target := LoadTokenPair(world.tokens, escrowKey, targetKey);
      var info := new AccountInfo(Balance(world.lamports, depositKey));
      var deposit := new DepositAccount(info, d.value);
      r := ReleaseTokenHandler(deposit, escrow, target);
      if r.Pass? {
        WroteTokens(world.tokens, escrowKey, targetKey, d.value.amount, escrow.Data(), target.Data());
        world := world.(tokens := world.tokens[escrowKey := escrow.Data()][targetKey := target.Data()],
                        deposits := world.deposits[depositKey := deposit.Data()]);
      }
    }

    method RefundToken(caller: Signer, vaultKey: Address, depositKey: Address, mint: Address, targetKey: Address)
      returns (r: Outcome<VaultError>)
      modifies this
      ensures Atomic(old(world), Instruction.RefundToken(caller, vaultKey, depositKey, mint, targetKey), world, r)
    {
      hide MoveTokens;
      var d := CheckRefundableToken(vaultKey, depositKey, mint, targetKey);
      if d.Err? {
        return Fail(d.error);
      }
      var escrowKey := EscrowPda(depositKey);
      var escrow, target := LoadTokenPair(world.tokens, escrowKey, targetKey);
      var info := new AccountInfo(Balance(world.lamports, depositKey));
      var deposit := new DepositAccount(info, d.value);
      TokenOutcome(world.tokens, escrowKey, targetKey, d.value.amount);
      r := RefundTokenHandler(deposit, escrow, target, world.now);
      if r.Pass? {
        WroteTokens(world.tokens, escrowKey, targetKey, d.value.amount, escrow.Data(), target.Data());
        world := world.(tokens := world.tokens[escrowKey := escrow.Data()][targetKey := target.Data()],
                        deposits := world.deposits[depositKey := deposit.Data()]);
      }
    }
  }

  // The contents of an account that `init` has just allocated.
  function Blank(): Deposit {
    Deposit(DEFAULT_KEY, ZERO_KEY, ZERO_KEY, 0, DEFAULT_KEY, 0, DEFAULT_KEY, DEFAULT_KEY, DEFAULT_KEY, 0, 0,
            Pending, [], 0, 0)
  }
}
