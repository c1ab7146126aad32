// Runs from a fresh chain, at any rent, that reach what the conditions of the
// theorems about payouts exclude.
module Witnesses {
  import opened Wrappers
  import opened Keys
  import opened Sums
  import opened Ledger
  import opened Vault
  import opened Solvency
  import opened Payouts
  import opened Settlement

  lemma ExecSnoc(w: World, steps: seq<Step>, step: Step)
    ensures Exec(w, steps + [step]) == Advance(Exec(w, steps), step).world
  {
    hide Advance;
    assert (steps + [step])[..|steps|] == steps;
  }

  // A fresh chain with these balances.
  function FreshChain(lamports: Lamports, rent: Rent, tokens: Tokens, mints: set<Address>): World {
    World(0, lamports, map[], map[], tokens, mints, rent)
  }

  lemma OneFunded(owner: Address, amount: U64)
    ensures TotalLamports(map[owner := amount]) == amount
  {
    var none: Lamports := map[];
    SumByPut<Address, U64>(none, Identity(), owner, amount);
    assert none[owner := amount] == map[owner := amount];
  }

  lemma TwoFunded(owner: Address, amount: U64, owner2: Address, amount2: U64)
    requires owner != owner2
    ensures TotalLamports(map[owner := amount][owner2 := amount2]) == amount + amount2
  {
    OneFunded(owner, amount);
    SumByPut<Address, U64>(map[owner := amount], Identity(), owner2, amount2);
  }

  // A vault whose owner is its one oracle.
  function SoloVault(owner: Address): Vault {
    Vault(owner, [owner], 1, false, 0)
  }

  predicate IsSolo(w: World, owner: Address) {
    && VaultPda(owner) in w.vaults
    && w.vaults[VaultPda(owner)] == SoloVault(owner).(depositCount := w.vaults[VaultPda(owner)].depositCount)
  }

  // The lamports after `amount` went from one account to another, other accounts
  // as they were.
  ghost predicate Shifted(l: Lamports, l2: Lamports, from: Address, to: Address, amount: nat) {
    && TotalLamports(l2) == TotalLamports(l)
    && forall a :: Balance(l2, a) == Balance(l, a) - (if a == from then amount else 0) + (if a == to then amount else 0)
  }

  lemma MoveShifts(l: Lamports, from: Address, to: Address, amount: U64)
    requires TotalLamports(l) <= U64_MAX && amount <= Balance(l, from)
    ensures Move(l, from, to, amount).Ok? && Shifted(l, Move(l, from, to, amount).value, from, to, amount)
  {
    MoveSucceeds(l, from, to, amount);
    MoveEffect(l, from, to, amount);
  }

  lemma ShiftedTwice(l: Lamports, l2: Lamports, l3: Lamports, from: Address, to: Address, x: nat, y: nat)
    requires Shifted(l, l2, from, to, x) && Shifted(l2, l3, from, to, y)
    ensures Shifted(l, l3, from, to, x + y)
  {
  }

  lemma Initialize(w: World, owner: Signer)
    requires VaultPda(owner) !in w.vaults && TotalLamports(w.lamports) <= U64_MAX
    requires Balance(w.lamports, VaultPda(owner)) == 0 && w.rent.vault <= Balance(w.lamports, owner)
    ensures var w2 := Advance(w, Call(InitializeVault(owner, [owner], 1))).world;
            && w2 == w.(lamports := w2.lamports, vaults := w.vaults[VaultPda(owner) := SoloVault(owner)])
            && Shifted(w.lamports, w2.lamports, owner, VaultPda(owner), w.rent.vault)
  {
    hide Move, Shifted;
    MoveShifts(w.lamports, owner, VaultPda(owner), w.rent.vault);
  }

  function KeyOf(owner: Address, args: DepositArgs): Address {
    DepositPda(VaultPda(owner), args.stealth, args.ephemeral)
  }

  // A deposit by any payer in the vault of `owner`.
  lemma OpenSol(w: World, payer: Signer, owner: Address, args: DepositArgs)
    requires IsSolo(w, owner) && KeyOf(owner, args) !in w.deposits && TotalLamports(w.lamports) <= U64_MAX
    requires Balance(w.lamports, KeyOf(owner, args)) == 0
    requires CheckArgs(args).Pass? && w.rent.deposit + args.amount <= Balance(w.lamports, payer)
    ensures var w2 := Advance(w, Call(MakeDeposit(payer, VaultPda(owner), args))).world;
            && w2 == w.(lamports := w2.lamports, vaults := w2.vaults, deposits := w2.deposits)
            && w2.deposits
               == w.deposits[KeyOf(owner, args) := NewDeposit(VaultPda(owner), payer, DEFAULT_KEY, args, w.now)]
            && w2.vaults == w.vaults[VaultPda(owner) := CountDeposit(w.vaults[VaultPda(owner)])]
            && Shifted(w.lamports, w2.lamports, payer, KeyOf(owner, args), w.rent.deposit + args.amount)
  {
    hide Move;
    var key := KeyOf(owner, args);
    MoveShifts(w.lamports, payer, key, w.rent.deposit);
    var paid := Move(w.lamports, payer, key, w.rent.deposit).value;
    MoveShifts(paid, payer, key, args.amount);
    ShiftedTwice(w.lamports, paid, Move(paid, payer, key, args.amount).value, payer, key, w.rent.deposit, args.amount);
  }

  // The owner's own clean vote decides a fresh deposit of its vault.
  lemma Approve(w: World, owner: Signer, a: Address)
    requires IsSolo(w, owner) && a in w.deposits
    requires var d := w.deposits[a];
             && a == DepositPda(VaultPda(owner), d.stealth, d.ephemeral)
             && d.state == Pending && d.attestations == [] && d.cleanCount == 0 && d.dirtyCount == 0
             && w.now < d.expireAt
    ensures var w2 := Advance(w, Call(Attest(owner, VaultPda(owner), a, Clean, ZERO_KEY))).world;
            && a in w2.deposits && w2 == w.(deposits := w.deposits[a := w2.deposits[a]])
            && w2.deposits[a] == w.deposits[a].(state := Approved, attestations := w2.deposits[a].attestations,
                                                cleanCount := 1)
  {
  }

  // What the owner needs for its vault and one deposit.
  function Costs(rent: Rent, amount: U64): nat {
    rent.vault + rent.deposit + rent.escrow + amount
  }

  // Initialise, deposit, attest: whatever the arguments, release authority
  // included, the deposit is approved at once.
  lemma ApprovedRun(owner: Signer, rent: Rent, args: DepositArgs) returns (w: World, steps: seq<Step>)
    requires CheckArgs(args).Pass? && Costs(rent, args.amount) <= U64_MAX
    ensures Genesis(w) && w.rent == rent && AllSignedBy(steps, {owner})
    ensures var w2, a := Exec(w, steps), KeyOf(owner, args);
            && w2.now == 0 && w2.rent == rent && a in w2.deposits
            && IsSol(w2.deposits[a]) && w2.deposits[a].state == Approved && w2.deposits[a].amount == args.amount
            && w2.deposits[a].releaseAuthority == args.releaseAuthority
            && w2.deposits[a].ephemeral == args.ephemeral && w2.deposits[a].vault == VaultPda(owner)
            && w2.deposits[a].expireAt == args.expireSeconds
  {
    hide Advance;
    w := FreshChain(map[owner := Costs(rent, args.amount)], rent, map[], {});
    OneFunded(owner, Costs(rent, args.amount));
    var init := Call(InitializeVault(owner, [owner], 1));
    var deposit := Call(MakeDeposit(owner, VaultPda(owner), args));
    var attest := Call(Attest(owner, VaultPda(owner), KeyOf(owner, args), Clean, ZERO_KEY));
    steps := [] + [init] + [deposit] + [attest];
    ExecSnoc(w, [], init);
    Initialize(w, owner);
    ExecSnoc(w, [] + [init], deposit);
    OpenSol(Exec(w, [] + [init]), owner, owner, args);
    ExecSnoc(w, [] + [init] + [deposit], attest);
    Approve(Exec(w, [] + [init] + [deposit]), owner, KeyOf(owner, args));
  }

  // For every release authority there is a run, signed by one oracle alone, in
  // which a lamport deposit is approved and expired, so that nobody but that
  // authority can ever settle it. With an authority that cannot sign, such as the
  // all-zero key or an address the program derives, it is stuck for good.
  lemma StuckRun(owner: Signer, rent: Rent, args: DepositArgs, signers: set<Signer>)
    returns (w: World, steps: seq<Step>)
    requires CheckArgs(args).Pass? && Costs(rent, args.amount) <= U64_MAX
    requires args.releaseAuthority !in signers
    ensures Genesis(w) && w.rent == rent && AllSignedBy(steps, {owner})
    ensures var w2, a := Exec(w, steps), KeyOf(owner, args);
            && a in w2.deposits && IsSol(w2.deposits[a]) && !Settled(w2.deposits[a])
            && w2.deposits[a].expireAt <= w2.now && !CanSettle(w2, a, signers)
            && forall more :: AllSignedBy(more, signers) ==>
                                a in Exec(w2, more).deposits && Exec(w2, more).deposits[a] == w2.deposits[a]
  {
    var approved;
    w, approved := ApprovedRun(owner, rent, args);
    var a := KeyOf(owner, args);
    steps := approved + [Tick(args.expireSeconds)];
    ExecSnoc(w, approved, Tick(args.expireSeconds));
    NothingStuck(w, steps, a, signers);
    var w2 := Exec(w, steps);
    forall more | AllSignedBy(more, signers)
      ensures a in Exec(w2, more).deposits && Exec(w2, more).deposits[a] == w2.deposits[a]
    {
      StuckForever(w2, more, a, signers);
    }
  }

  // A deposit released to its own account: settled, and its lamports stay where
  // they are in every continuation.
  lemma SelfReleaseRun(owner: Signer, rent: Rent, args: DepositArgs)
    returns (w: World, steps: seq<Step>)
    requires CheckArgs(args).Pass? && Costs(rent, args.amount) <= U64_MAX
    requires args.releaseAuthority == owner
    ensures Genesis(w) && w.rent == rent
    ensures var w2, a := Exec(w, steps), KeyOf(owner, args);
            && a in w2.deposits && w2.deposits[a].state == Released
            && forall more :: Balance(Exec(w2, more).lamports, a) >= rent.deposit + args.amount
  {
    hide Advance, Apply;
    var approved;
    w, approved := ApprovedRun(owner, rent, args);
    var a := KeyOf(owner, args);
    var w1 := Exec(w, approved);
    var release := Release(owner, VaultPda(owner), a, a);
    steps := approved + [Call(release)];
    AlwaysSolvent(w, approved);
    EscrowHolds(w, approved, a);
    ReleaseWorks(w1, a, a);
    ExecSnoc(w, approved, Call(release));
    LastStep(w1, release);
    SelfReleaseKeeps(w1, release);
    var w2 := Exec(w, steps);
    Conservation(w, steps);
    forall more ensures Balance(Exec(w2, more).lamports, a) >= rent.deposit + args.amount {
      SettledNeverPays(w2, more, a);
    }
  }

  lemma SelfReleaseKeeps(w: World, release: Instruction)
    requires release.Release? && release.target == release.deposit && Apply(w, release).Ok?
    ensures release.deposit in w.deposits
    ensures var w2 := Apply(w, release).value.world;
            && Balance(w2.lamports, release.deposit) == Balance(w.lamports, release.deposit)
            && release.deposit in w2.deposits && w2.deposits[release.deposit].state == Released
  {
  }

  // -------------------------------------------------------------------------
  // A lamport release of a token deposit

  lemma OpenToken(w: World, owner: Signer, mint: Address, source: Signer, args: DepositArgs)
    requires IsSolo(w, owner) && KeyOf(owner, args) !in w.deposits && EscrowPda(KeyOf(owner, args)) !in w.tokens
    requires mint in w.mints && source in w.tokens && w.tokens[source] == TokenAccount(mint, owner, args.amount)
    requires CheckArgs(args).Pass? && TotalLamports(w.lamports) <= U64_MAX
    requires Balance(w.lamports, KeyOf(owner, args)) == 0 && Balance(w.lamports, EscrowPda(KeyOf(owner, args))) == 0
    requires w.rent.deposit + w.rent.escrow <= Balance(w.lamports, owner)
    ensures var a := KeyOf(owner, args);
            var w2 := Advance(w, Call(DepositToken(owner, VaultPda(owner), mint, source, args))).world;
            && w2 == w.(lamports := w2.lamports, tokens := w2.tokens, vaults := w2.vaults,
                        deposits := w.deposits[a := NewDeposit(VaultPda(owner), owner, mint, args, w.now)])
            && IsSolo(w2, owner) && TotalLamports(w2.lamports) == TotalLamports(w.lamports)
            && Balance(w2.lamports, a) == w.rent.deposit
            && Balance(w2.lamports, owner) == Balance(w.lamports, owner) - w.rent.deposit - w.rent.escrow
            && EscrowPda(a) in w2.tokens && w2.tokens[EscrowPda(a)] == TokenAccount(mint, a, args.amount)
  {
    hide Move;
    var a := KeyOf(owner, args);
    MoveShifts(w.lamports, owner, a, w.rent.deposit);
    var paid := Move(w.lamports, owner, a, w.rent.deposit).value;
    MoveShifts(paid, owner, EscrowPda(a), w.rent.escrow);
  }

  lemma TopUp(w: World, owner: Signer, a: Address, amount: U64)
    requires a != owner && amount <= Balance(w.lamports, owner) && TotalLamports(w.lamports) <= U64_MAX
    ensures var w2 := Advance(w, Call(SystemTransfer(owner, a, amount))).world;
            w2 == w.(lamports := w2.lamports) && Shifted(w.lamports, w2.lamports, owner, a, amount)
  {
    hide Move, Shifted;
    MoveShifts(w.lamports, owner, a, amount);
  }

  lemma ReleaseLamports(w: World, owner: Signer, a: Address)
    requires IsSolo(w, owner) && a in w.deposits && TotalLamports(w.lamports) <= U64_MAX
    requires var d := w.deposits[a];
             && a == DepositPda(VaultPda(owner), d.stealth, d.ephemeral) && d.state == Approved
             && d.releaseAuthority == owner && d.amount <= Balance(w.lamports, a)
    ensures var ix := Release(owner, VaultPda(owner), a, owner);
            && Apply(w, ix).Ok? && Apply(w, ix).value.world.tokens == w.tokens && SettledBy(w, ix, a)
            && Balance(Apply(w, ix).value.world.lamports, a) == Balance(w.lamports, a) - w.deposits[a].amount
  {
    MoveShifts(w.lamports, a, owner, w.deposits[a].amount);
  }

  // Initialise and deposit tokens.
  lemma TokenRun(owner: Signer, rent: Rent, mint: Address, source: Signer, args: DepositArgs)
    returns (w: World, steps: seq<Step>)
    requires CheckArgs(args).Pass? && mint != DEFAULT_KEY && Costs(rent, args.amount) <= U64_MAX
    ensures Genesis(w) && w.rent == rent
    ensures var w2, a := Exec(w, steps), KeyOf(owner, args);
            && IsSolo(w2, owner) && TotalLamports(w2.lamports) <= U64_MAX && w2.now == 0
            && a in w2.deposits && w2.deposits[a] == NewDeposit(VaultPda(owner), owner, mint, args, 0)
            && Balance(w2.lamports, a) == rent.deposit && Balance(w2.lamports, owner) == args.amount
            && EscrowPda(a) in w2.tokens && w2.tokens[EscrowPda(a)] == TokenAccount(mint, a, args.amount)
  {
    hide Advance, Apply;
    var tokens: Tokens := map[source := TokenAccount(mint, owner, args.amount)];
    w := FreshChain(map[owner := Costs(rent, args.amount)], rent, tokens, {mint});
    OneFunded(owner, Costs(rent, args.amount));
    var init := Call(InitializeVault(owner, [owner], 1));
    var deposit := Call(DepositToken(owner, VaultPda(owner), mint, source, args));
    ExecSnoc(w, [], init);
    Initialize(w, owner);
    ExecSnoc(w, [] + [init], deposit);
    OpenToken(Exec(w, [] + [init]), owner, mint, source, args);
    steps := [] + [init] + [deposit];
  }

  // Then attest, and send the deposit account its amount in lamports.
  lemma TokenApprovedRun(owner: Signer, rent: Rent, mint: Address, source: Signer, args: DepositArgs)
    returns (w: World, steps: seq<Step>)
    requires CheckArgs(args).Pass? && mint != DEFAULT_KEY && Costs(rent, args.amount) <= U64_MAX
    ensures Genesis(w) && w.rent == rent
    ensures var w2, a := Exec(w, steps), KeyOf(owner, args);
            && IsSolo(w2, owner) && TotalLamports(w2.lamports) <= U64_MAX && a in w2.deposits
            && Balance(w2.lamports, a) == rent.deposit + args.amount
            && EscrowPda(a) in w2.tokens && w2.tokens[EscrowPda(a)] == TokenAccount(mint, a, args.amount)
            && var d := w2.deposits[a];
               d.stealth == args.stealth && d.ephemeral == args.ephemeral && d.state == Approved && d.mint == mint
               && d.amount == args.amount && d.releaseAuthority == args.releaseAuthority
  {
    hide Advance, Apply, Exec, Genesis;
    var a := KeyOf(owner, args);
    var before;
    w, before := TokenRun(owner, rent, mint, source, args);
    var attest := Call(Attest(owner, VaultPda(owner), a, Clean, ZERO_KEY));
    var topUp := Call(SystemTransfer(owner, a, args.amount));
    ExecSnoc(w, before, attest);
    Approve(Exec(w, before), owner, a);
    ExecSnoc(w, before + [attest], topUp);
    TopUp(Exec(w, before + [attest]), owner, a, args.amount);
    steps := before + [attest] + [topUp];
  }

  // A run whose last step is a lamport release of an approved token deposit to
  // whose account somebody had sent the amount in lamports. It succeeds and leaves
  // the rent; the tokens stay behind in the escrow of a settled deposit, and
  // payouts no longer match the settled deposits.
  lemma MisusedRun(owner: Signer, rent: Rent, mint: Address, source: Signer, args: DepositArgs)
    returns (w: World, steps: seq<Step>)
    requires CheckArgs(args).Pass? && args.releaseAuthority == owner && mint != DEFAULT_KEY
    requires Costs(rent, args.amount) <= U64_MAX
    ensures Genesis(w) && w.rent == rent && !SolExitsFitMint(w, steps)
    ensures exists asset, outcome ::
              (outcome == Released || outcome == Refunded) && !TotalsMatch(w, steps, asset, outcome)
    ensures var w2, a := Exec(w, steps), KeyOf(owner, args);
            && a in w2.deposits && Settled(w2.deposits[a]) && Balance(w2.lamports, a) == rent.deposit
            && EscrowPda(a) in w2.tokens && w2.tokens[EscrowPda(a)] == TokenAccount(mint, a, args.amount)
  {
    hide Advance, Apply, TotalsMatch, Genesis;
    var a := KeyOf(owner, args);
    var ready;
    w, ready := TokenApprovedRun(owner, rent, mint, source, args);
    var release := Call(Release(owner, VaultPda(owner), a, owner));
    steps := ready + [release];
    ExecSnoc(w, ready, release);
    ReleaseLamports(Exec(w, ready), owner, a);
    LastStep(Exec(w, ready), release.ix);
    Misfit(w, ready, release, a);
    PayoutTotals(w, steps);
  }

  lemma LastStep(w: World, ix: Instruction)
    requires Apply(w, ix).Ok?
    ensures Advance(w, Call(ix)).world == Apply(w, ix).value.world
  {
  }

  lemma Misfit(w: World, before: seq<Step>, release: Step, a: Address)
    requires release.Call? && release.ix.Release? && release.ix.deposit == a
    requires Apply(Exec(w, before), release.ix).Ok? && a in Exec(w, before).deposits
    requires !IsSol(Exec(w, before).deposits[a])
    ensures !SolExitsFitMint(w, before + [release])
  {
    hide Apply;
    var steps := before + [release];
    assert steps[..|before|] == before;
    assert !SolExitFits(Exec(w, steps[..|before|]), steps[|before|]);
  }
}
