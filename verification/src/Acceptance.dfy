// When each instruction succeeds, with which error it fails otherwise, and what
// an opening costs, on every reachable state.
module Acceptance {
  import opened Wrappers
  import opened Keys
  import opened Ledger
  import opened Vault
  import opened Lifecycle
  import opened Evidence
  import opened Solvency
  import opened Payouts
  import opened Settlement

  // Rent for an address is at hand: what it has and what the payer has.
  predicate CanHouse(l: Lamports, payer: Address, key: Address, rent: nat, amount: nat) {
    amount <= Balance(l, payer) && rent + amount <= Balance(l, key) + Balance(l, payer)
  }

  function Larger(a: nat, b: nat): nat {
    if a < b then b else a
  }

  lemma HousingMove(l: Lamports, payer: Address, key: Address, rent: U64)
    requires payer != key && TotalLamports(l) <= U64_MAX
    ensures Move(l, payer, key, Shortfall(l, key, rent)).Ok? <==> CanHouse(l, payer, key, rent, 0)
    ensures Move(l, payer, key, Shortfall(l, key, rent)).Ok? ==>
              var l2 := Move(l, payer, key, Shortfall(l, key, rent)).value;
              && TotalLamports(l2) == TotalLamports(l)
              && Balance(l2, key) == Larger(rent, Balance(l, key))
              && Balance(l2, payer) + Balance(l2, key) == Balance(l, payer) + Balance(l, key)
              && forall a :: a != payer && a != key ==> Balance(l2, a) == Balance(l, a)
  {
    hide Move;
    MoveSucceeds(l, payer, key, Shortfall(l, key, rent));
    if Move(l, payer, key, Shortfall(l, key, rent)).Ok? {
      MoveEffect(l, payer, key, Shortfall(l, key, rent));
    }
  }

  // A vault of any 1 to 16 oracles and any threshold among them can be initialised
  // once by each authority that can pay for it, and no other vault can.
  lemma InitializeAccepted(w: World, ix: Instruction)
    requires Solvent(w) && ix.InitializeVault?
    ensures Apply(w, ix).Ok?
            <==> && VaultPda(ix.authority) !in w.vaults
                 && 1 <= ix.minAttestations <= |ix.oracleSet| <= 16
                 && CanHouse(w.lamports, ix.authority, VaultPda(ix.authority), w.rent.vault, 0)
    ensures VaultPda(ix.authority) !in w.vaults
            && CanHouse(w.lamports, ix.authority, VaultPda(ix.authority), w.rent.vault, 0) ==>
              && (Apply(w, ix) == Err(TooManyOracles) <==> |ix.oracleSet| > 16)
              && (Apply(w, ix) == Err(InvalidThreshold)
                  <==> |ix.oracleSet| <= 16 && !(1 <= ix.minAttestations <= |ix.oracleSet|))
  {
    hide Move, CanHouse;
    HousingMove(w.lamports, ix.authority, VaultPda(ix.authority), w.rent.vault);
  }

  predicate GoodTerms(args: DepositArgs) {
    args.amount > 0 && 60 <= args.expireSeconds <= 2592000
  }

  lemma TermsChecked(args: DepositArgs)
    ensures CheckArgs(args).Pass? <==> GoodTerms(args)
    ensures CheckArgs(args) == Fail(InvalidAmount) <==> args.amount == 0
    ensures CheckArgs(args) == Fail(InvalidExpiry) <==> args.amount > 0 && !(60 <= args.expireSeconds <= 2592000)
  {
  }

  // Any positive amount and any expiry from a minute to thirty days can be
  // deposited in any vault under a fresh key by whoever can pay for it, and nothing
  // else; the deposit account then holds the amount besides at least its rent, the
  // payer lost what it gained, and nobody else anything.
  lemma DepositAccepted(w: World, ix: Instruction)
    requires Solvent(w) && ix.MakeDeposit?
    ensures var key := DepositPda(ix.vault, ix.args.stealth, ix.args.ephemeral);
            && (Apply(w, ix).Ok?
                <==> ix.vault in w.vaults && key !in w.deposits && GoodTerms(ix.args)
                     && CanHouse(w.lamports, ix.depositor, key, w.rent.deposit, ix.args.amount))
            && (Apply(w, ix).Ok? ==>
                  var l, l2 := w.lamports, Apply(w, ix).value.world.lamports;
                  && Balance(l2, key) == Larger(w.rent.deposit, Balance(l, key)) + ix.args.amount
                  && Balance(l2, ix.depositor) + Balance(l2, key) == Balance(l, ix.depositor) + Balance(l, key)
                  && forall a :: a != ix.depositor && a != key ==> Balance(l2, a) == Balance(l, a))
            && (ix.vault in w.vaults && key !in w.deposits
                && CanHouse(w.lamports, ix.depositor, key, w.rent.deposit, 0) ==>
                  && (Apply(w, ix) == Err(InvalidAmount) <==> ix.args.amount == 0)
                  && (Apply(w, ix) == Err(InvalidExpiry)
                      <==> ix.args.amount > 0 && !(60 <= ix.args.expireSeconds <= 2592000)))
  {
    hide Move, CheckArgs;
    var key := DepositPda(ix.vault, ix.args.stealth, ix.args.ephemeral);
    HousingMove(w.lamports, ix.depositor, key, w.rent.deposit);
    TermsChecked(ix.args);
    var first := Move(w.lamports, ix.depositor, key, Shortfall(w.lamports, key, w.rent.deposit));
    if first.Ok? {
      MoveSucceeds(first.value, ix.depositor, key, ix.args.amount);
      if Move(first.value, ix.depositor, key, ix.args.amount).Ok? {
        MoveEffect(first.value, ix.depositor, key, ix.args.amount);
      }
    }
  }

  // The same for tokens out of an account of the depositor's own.
  lemma TokenDepositAccepted(w: World, ix: Instruction)
    requires Solvent(w) && SuppliesFit(w) && ix.DepositToken?
    ensures var key := DepositPda(ix.vault, ix.args.stealth, ix.args.ephemeral);
            Apply(w, ix).Ok?
            <==> && ix.vault in w.vaults && key !in w.deposits && GoodTerms(ix.args)
                 && CanHouse(w.lamports, ix.depositor, key, w.rent.deposit, 0)
                 && ix.mint in w.mints && ix.source in w.tokens
                 && w.tokens[ix.source].mint == ix.mint && w.tokens[ix.source].owner == ix.depositor
                 && EscrowPda(key) !in w.tokens
                 && w.rent.escrow + Larger(w.rent.deposit, Balance(w.lamports, key))
                    <= Balance(w.lamports, ix.depositor) + Balance(w.lamports, key) + Balance(w.lamports, EscrowPda(key))
                 && ix.args.amount <= w.tokens[ix.source].amount
    ensures Apply(w, ix).Ok? ==>
              var escrow := EscrowPda(DepositPda(ix.vault, ix.args.stealth, ix.args.ephemeral));
              var t2 := Apply(w, ix).value.world.tokens;
              && t2.Keys == w.tokens.Keys + {escrow}
              && t2[escrow].amount == ix.args.amount
              && t2[ix.source].amount == w.tokens[ix.source].amount - ix.args.amount
              && forall t :: t in w.tokens && t != ix.source ==> t2[t] == w.tokens[t]
  {
    hide Move, CheckArgs, MoveTokens;
    var key := DepositPda(ix.vault, ix.args.stealth, ix.args.ephemeral);
    HousingMove(w.lamports, ix.depositor, key, w.rent.deposit);
    TermsChecked(ix.args);
    var first := Move(w.lamports, ix.depositor, key, Shortfall(w.lamports, key, w.rent.deposit));
    if first.Ok? {
      HousingMove(first.value, ix.depositor, EscrowPda(key), w.rent.escrow);
    }
    if ix.source in w.tokens && EscrowPda(key) !in w.tokens {
      FundEscrow(w.tokens, ix.source, EscrowPda(key), TokenAccount(ix.mint, key, 0), ix.args.amount);
    }
  }

  // Into an empty escrow nothing overflows.
  lemma FundEscrow(t: Tokens, source: Address, escrow: Address, empty: TokenAccount, amount: U64)
    requires source in t && escrow !in t && empty.amount == 0
    ensures var r := MoveTokens(t[escrow := empty], source, escrow, amount);
            && (r.Ok? <==> amount <= t[source].amount)
            && (r.Ok? ==>
                  && r.value.Keys == t.Keys + {escrow}
                  && r.value[escrow].amount == amount && r.value[source].amount == t[source].amount - amount
                  && forall k :: k in t && k != source ==> r.value[k] == t[k])
  {
  }

  predicate HasVoted(d: Deposit, oracle: Address) {
    exists i :: 0 <= i < |d.attestations| && d.attestations[i].oracle == oracle
  }

  // On a deposit of the vault that was passed in, a vote succeeds exactly if the
  // deposit is pending, the voter is an oracle of the vault who has not voted, and
  // the window is open; the first of these that fails names the error.
  lemma AttestAccepted(w: World, ix: Instruction)
    requires WellFormed(w) && ix.Attest? && ix.deposit in w.deposits && w.deposits[ix.deposit].vault == ix.vault
    ensures ix.vault in w.vaults
    ensures var d, oracles := w.deposits[ix.deposit], w.vaults[ix.vault].oracleSet;
            && (Apply(w, ix).Ok?
                <==> d.state == Pending && ix.oracle in oracles && !HasVoted(d, ix.oracle) && w.now < d.expireAt)
            && (Apply(w, ix) == Err(InvalidState) <==> d.state != Pending)
            && (Apply(w, ix) == Err(UnauthorizedOracle) <==> d.state == Pending && ix.oracle !in oracles)
            && (Apply(w, ix) == Err(DuplicateAttestation)
                <==> d.state == Pending && ix.oracle in oracles && HasVoted(d, ix.oracle))
            && (Apply(w, ix) == Err(AlreadyExpired)
                <==> d.state == Pending && ix.oracle in oracles && !HasVoted(d, ix.oracle) && d.expireAt <= w.now)
  {
    assert DepositOk(w, ix.deposit);
  }

  predicate CanRefundNow(d: Deposit, now: I64) {
    d.state == Rejected || (d.state == Pending && d.expireAt <= now)
  }

  // A lamport release succeeds exactly on an approved deposit of the vault passed
  // in, for its release authority, if the account holds the amount.
  lemma ReleaseAccepted(w: World, ix: Instruction)
    requires Solvent(w) && ix.Release? && ix.deposit in w.deposits && w.deposits[ix.deposit].vault == ix.vault
    ensures var d := w.deposits[ix.deposit];
            && (Apply(w, ix).Ok?
                <==> d.state == Approved && ix.releaseAuthority == d.releaseAuthority
                     && d.amount <= Balance(w.lamports, ix.deposit))
            && (Apply(w, ix) == Err(InvalidState) <==> d.state != Approved)
            && (Apply(w, ix) == Err(InvalidReleaseAuthority)
                <==> d.state == Approved && ix.releaseAuthority != d.releaseAuthority)
            && (Apply(w, ix) == Err(Transfer(InsufficientFunds))
                <==> d.state == Approved && ix.releaseAuthority == d.releaseAuthority
                     && d.amount > Balance(w.lamports, ix.deposit))
            && (Apply(w, ix).Ok? ==> Apply(w, ix).value.world.deposits[ix.deposit].state == Released)
  {
    assert DepositOk(w, ix.deposit);
    MoveSucceeds(w.lamports, ix.deposit, ix.target, w.deposits[ix.deposit].amount);
  }

  // A lamport refund succeeds exactly on a rejected or overdue deposit, to its
  // refund address, whoever calls, if the account holds the amount.
  lemma RefundAccepted(w: World, ix: Instruction)
    requires Solvent(w) && ix.Refund? && ix.deposit in w.deposits && w.deposits[ix.deposit].vault == ix.vault
    ensures var d := w.deposits[ix.deposit];
            && (Apply(w, ix).Ok?
                <==> CanRefundNow(d, w.now) && ix.target == d.refundAddr && d.amount <= Balance(w.lamports, ix.deposit))
            && (Apply(w, ix) == Err(InvalidState) <==> !CanRefundNow(d, w.now))
            && (Apply(w, ix) == Err(InvalidRefundAuthority) <==> CanRefundNow(d, w.now) && ix.target != d.refundAddr)
            && (Apply(w, ix).Ok? ==> Apply(w, ix).value.world.deposits[ix.deposit].state == Refunded)
  {
    assert DepositOk(w, ix.deposit);
    MoveSucceeds(w.lamports, ix.deposit, ix.target, w.deposits[ix.deposit].amount);
  }

  // The token exits, to any account of the mint and to one of the refund address.
  lemma TokenReleaseAccepted(w: World, ix: Instruction)
    requires Solvent(w) && SuppliesFit(w) && ix.ReleaseToken?
    requires ix.deposit in w.deposits && w.deposits[ix.deposit].vault == ix.vault && !IsSol(w.deposits[ix.deposit])
    ensures var d := w.deposits[ix.deposit];
            Apply(w, ix).Ok?
            <==> && d.state == Approved && ix.releaseAuthority == d.releaseAuthority && ix.mint == d.mint
                 && ix.target in w.tokens && w.tokens[ix.target].mint == d.mint
  {
    hide MoveTokens;
    var d := w.deposits[ix.deposit];
    assert DepositOk(w, ix.deposit) && TokenCovered(w, ix.deposit) && TokenSupply(w.tokens, d.mint) <= U64_MAX;
    if ix.target in w.tokens && w.tokens[ix.target].mint == d.mint {
      MoveTokensSucceeds(w.tokens, EscrowPda(ix.deposit), ix.target, d.amount);
    }
  }

  lemma TokenRefundAccepted(w: World, ix: Instruction)
    requires Solvent(w) && SuppliesFit(w) && ix.RefundToken?
    requires ix.deposit in w.deposits && w.deposits[ix.deposit].vault == ix.vault && !IsSol(w.deposits[ix.deposit])
    ensures var d := w.deposits[ix.deposit];
            Apply(w, ix).Ok?
            <==> && CanRefundNow(d, w.now) && ix.mint == d.mint
                 && ix.target in w.tokens && w.tokens[ix.target].mint == d.mint
                 && w.tokens[ix.target].owner == d.refundAddr
  {
    hide MoveTokens, TotalLamports;
    var d := w.deposits[ix.deposit];
    assert DepositOk(w, ix.deposit) && TokenCovered(w, ix.deposit) && TokenSupply(w.tokens, d.mint) <= U64_MAX;
    if ix.target in w.tokens && w.tokens[ix.target].mint == d.mint {
      MoveTokensSucceeds(w.tokens, EscrowPda(ix.deposit), ix.target, d.amount);
    }
  }

  // No instruction reaches a deposit through another vault than its own.
  lemma WrongVaultRefused(w: World, ix: Instruction)
    requires WellFormed(w)
    requires ix.Attest? || ix.Release? || ix.Refund? || ix.ReleaseToken? || ix.RefundToken?
    requires ix.deposit in w.deposits && w.deposits[ix.deposit].vault != ix.vault
    ensures Apply(w, ix).Err?
  {
    hide Move, MoveTokens, VotesOk, StateOk;
    assert DepositOk(w, ix.deposit);
  }

  // A paused vault takes no deposit and no vote.
  lemma PausedVaultRefuses(w: World, ix: Instruction)
    requires ix.MakeDeposit? || ix.DepositToken? || ix.Attest?
    requires ix.vault in w.vaults && ix.vault == VaultPda(w.vaults[ix.vault].authority) && w.vaults[ix.vault].paused
    ensures Apply(w, ix) == Err(Paused)
  {
  }

  predicate PaysAlike(w: World, w2: World, ix: Instruction) {
    && (Apply(w, ix).Ok? <==> Apply(w2, ix).Ok?)
    && (Apply(w, ix).Err? ==> Apply(w2, ix) == Apply(w, ix))
    && (Apply(w, ix).Ok? ==> Apply(w2, ix).value.moves == Apply(w, ix).value.moves)
  }

  function WithPaused(w: World, vault: Address, paused: bool): World
    requires vault in w.vaults
  {
    w.(vaults := w.vaults[vault := w.vaults[vault].(paused := paused)])
  }

  lemma PausedVaultSettlesLamports(w: World, ix: Instruction, paused: bool)
    requires (ix.Release? || ix.Refund?) && ix.vault in w.vaults
    ensures PaysAlike(w, WithPaused(w, ix.vault, paused), ix)
  {
    hide Move;
  }

  lemma PausedVaultReleasesTokens(w: World, ix: Instruction, paused: bool)
    requires ix.ReleaseToken? && ix.vault in w.vaults
    ensures PaysAlike(w, WithPaused(w, ix.vault, paused), ix)
  {
    hide MoveTokens;
  }

  lemma PausedVaultRefundsTokens(w: World, ix: Instruction, paused: bool)
    requires ix.RefundToken? && ix.vault in w.vaults
    ensures PaysAlike(w, WithPaused(w, ix.vault, paused), ix)
  {
    hide MoveTokens;
  }

  // Its deposits are settled as if it were not paused.
  lemma PausedVaultSettles(w: World, ix: Instruction, paused: bool)
    requires ix.Release? || ix.Refund? || ix.ReleaseToken? || ix.RefundToken?
    requires ix.vault in w.vaults
    ensures PaysAlike(w, WithPaused(w, ix.vault, paused), ix)
  {
    hide PaysAlike;
    if ix.Release? || ix.Refund? {
      PausedVaultSettlesLamports(w, ix, paused);
    } else if ix.ReleaseToken? {
      PausedVaultReleasesTokens(w, ix, paused);
    } else {
      PausedVaultRefundsTokens(w, ix, paused);
    }
  }
}
