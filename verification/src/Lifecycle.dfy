// What one step of the chain can do to a deposit: open it, add a vote to it,
// release it or refund it. Everything later about deposits rests on this.
module Lifecycle {
  import opened Wrappers
  import opened Keys
  import opened Ledger
  import opened Vault

  // Everything about a vault except its deposit counter.
  predicate SameRules(v: Vault, v2: Vault) {
    v2 == v.(depositCount := v2.depositCount)
  }

  // Everything about a deposit except its votes and its state.
  predicate SameTerms(d: Deposit, d2: Deposit) {
    d2 == d.(state := d2.state, attestations := d2.attestations,
             cleanCount := d2.cleanCount, dirtyCount := d2.dirtyCount)
  }

  ghost predicate IsOpened(w: World, a: Address, d: Deposit) {
    && a == DepositPda(d.vault, d.stealth, d.ephemeral)
    && d.vault in w.vaults
    && d.amount > 0
    && d.createdAt == w.now <= d.expireAt
    && d.state == Pending && d.attestations == [] && d.cleanCount == 0 && d.dirtyCount == 0
  }

  ghost predicate IsVoted(w: World, a: Address, d: Deposit, d2: Deposit) {
    && a.DepositPda? && a.vault in w.vaults
    && exists oracle, verdict, evidence ::
         AttestDeposit(w.vaults[a.vault], d, oracle, verdict, evidence, w.now) == Ok(d2)
  }

  predicate IsReleased(d: Deposit, d2: Deposit) {
    d.state == Approved && d2 == d.(state := Released)
  }

  predicate IsRefunded(d: Deposit, d2: Deposit, now: I64) {
    && d2 == d.(state := Refunded)
    && (d.state == Rejected || d.state == Expired || (d.state == Pending && d.expireAt <= now))
  }

  ghost predicate DepositStep(w: World, a: Address, d: Deposit, d2: Deposit) {
    d2 == d || IsVoted(w, a, d, d2) || IsReleased(d, d2) || IsRefunded(d, d2, w.now)
  }

  ghost predicate ChainStep(w: World, w2: World) {
    && w.now <= w2.now
    && w.rent == w2.rent && w.mints == w2.mints
    && (forall v :: v in w.vaults ==> v in w2.vaults && SameRules(w.vaults[v], w2.vaults[v]))
    && (forall v :: v in w2.vaults && v !in w.vaults ==>
                      && v == VaultPda(w2.vaults[v].authority)
                      && CheckThreshold(w2.vaults[v].oracleSet, w2.vaults[v].minAttestations) == Pass
                      && !w2.vaults[v].paused)
    && (forall a :: a in w.deposits ==> a in w2.deposits && DepositStep(w, a, w.deposits[a], w2.deposits[a]))
    && (forall a :: a in w2.deposits && a !in w.deposits ==> IsOpened(w, a, w2.deposits[a]))
  }

  lemma DepositOfChainStep(w: World, w2: World, a: Address)
    requires ChainStep(w, w2) && a in w.deposits
    ensures a in w2.deposits && DepositStep(w, a, w.deposits[a], w2.deposits[a])
  {
  }

  // The one deposit account an instruction may create or change.
  function Subject(ix: Instruction): Option<Address> {
    match ix
    case MakeDeposit(_, vault, args) => Some(DepositPda(vault, args.stealth, args.ephemeral))
    case DepositToken(_, vault, _, _, args) => Some(DepositPda(vault, args.stealth, args.ephemeral))
    case Attest(_, _, deposit, _, _) => Some(deposit)
    case Release(_, _, deposit, _) => Some(deposit)
    case Refund(_, _, deposit, _) => Some(deposit)
    case ReleaseToken(_, _, deposit, _, _) => Some(deposit)
    case RefundToken(_, _, deposit, _, _) => Some(deposit)
    case _ => None
  }

  ghost predicate OnlyChanges(w: World, w2: World, subject: Option<Address>) {
    match subject
    case None => w2.deposits == w.deposits
    case Some(a) => a in w2.deposits && w2.deposits == w.deposits[a := w2.deposits[a]]
  }

  lemma OneDepositChanges(w: World, ix: Instruction)
    requires Apply(w, ix).Ok?
    ensures OnlyChanges(w, Apply(w, ix).value.world, Subject(ix))
  {
    if ix.Release? || ix.ReleaseToken? {
      ReleaseIsChainStep(w, ix);
    } else if ix.Refund? || ix.RefundToken? {
      RefundIsChainStep(w, ix);
    } else if ix.MakeDeposit? {
      MakeDepositIsChainStep(w, ix);
    } else if ix.DepositToken? {
      DepositTokenIsChainStep(w, ix);
    }
  }

  lemma InitializeIsChainStep(w: World, ix: Instruction)
    requires ix.InitializeVault? && Apply(w, ix).Ok?
    ensures ChainStep(w, Apply(w, ix).value.world)
  {
  }

  // Opening a deposit in a vault is a step of the chain.
  lemma OpeningIsChainStep(w: World, w2: World, vault: Address, a: Address, d: Deposit)
    requires a !in w.deposits && IsOpened(w, a, d) && vault in w.vaults
    requires w2.deposits == w.deposits[a := d] && w2.vaults == w.vaults[vault := CountDeposit(w.vaults[vault])]
    requires w2.now == w.now && w2.rent == w.rent && w2.mints == w.mints
    ensures ChainStep(w, w2) && OnlyChanges(w, w2, Some(a))
  {
  }

  lemma MakeDepositIsChainStep(w: World, ix: Instruction)
    requires ix.MakeDeposit? && Apply(w, ix).Ok?
    ensures ChainStep(w, Apply(w, ix).value.world)
    ensures OnlyChanges(w, Apply(w, ix).value.world, Subject(ix))
  {
    hide ChainStep, OnlyChanges, Move;
    var d := NewDeposit(ix.vault, ix.depositor, DEFAULT_KEY, ix.args, w.now);
    OpeningIsChainStep(w, Apply(w, ix).value.world, ix.vault, Subject(ix).value, d);
  }

  lemma DepositTokenIsChainStep(w: World, ix: Instruction)
    requires ix.DepositToken? && Apply(w, ix).Ok?
    ensures ChainStep(w, Apply(w, ix).value.world)
    ensures OnlyChanges(w, Apply(w, ix).value.world, Subject(ix))
  {
    hide ChainStep, OnlyChanges, Move, MoveTokens;
    var d := NewDeposit(ix.vault, ix.depositor, ix.mint, ix.args, w.now);
    OpeningIsChainStep(w, Apply(w, ix).value.world, ix.vault, Subject(ix).value, d);
  }

  lemma AttestIsChainStep(w: World, ix: Instruction)
    requires ix.Attest?
    requires Apply(w, ix).Ok?
    ensures ChainStep(w, Apply(w, ix).value.world)
  {
    var d2 := Apply(w, ix).value.world.deposits[ix.deposit];
    assert AttestDeposit(w.vaults[ix.vault], w.deposits[ix.deposit], ix.oracle, ix.verdict, ix.evidence, w.now)
        == Ok(d2);
    assert IsVoted(w, ix.deposit, w.deposits[ix.deposit], d2);
  }

  // Any change of one deposit that is a step of its life is a step of the chain.
  lemma ExitIsChainStep(w: World, w2: World, a: Address, d2: Deposit)
    requires a in w.deposits && (IsReleased(w.deposits[a], d2) || IsRefunded(w.deposits[a], d2, w.now))
    requires w2.deposits == w.deposits[a := d2] && w2.vaults == w.vaults
    requires w2.now == w.now && w2.rent == w.rent && w2.mints == w.mints
    ensures ChainStep(w, w2)
  {
  }

  lemma ReleaseIsChainStep(w: World, ix: Instruction)
    requires ix.Release? || ix.ReleaseToken?
    requires Apply(w, ix).Ok?
    ensures ChainStep(w, Apply(w, ix).value.world)
    ensures ix.deposit in w.deposits && OnlyChanges(w, Apply(w, ix).value.world, Subject(ix))
    ensures IsReleased(w.deposits[ix.deposit], Apply(w, ix).value.world.deposits[ix.deposit])
  {
    var w2 := Apply(w, ix).value.world;
    ExitIsChainStep(w, w2, ix.deposit, w2.deposits[ix.deposit]);
  }

  lemma RefundIsChainStep(w: World, ix: Instruction)
    requires ix.Refund? || ix.RefundToken?
    requires Apply(w, ix).Ok?
    ensures ChainStep(w, Apply(w, ix).value.world)
    ensures ix.deposit in w.deposits && OnlyChanges(w, Apply(w, ix).value.world, Subject(ix))
    ensures IsRefunded(w.deposits[ix.deposit], Apply(w, ix).value.world.deposits[ix.deposit], w.now)
  {
    var w2 := Apply(w, ix).value.world;
    ExitIsChainStep(w, w2, ix.deposit, w2.deposits[ix.deposit]);
  }

  lemma TransferIsChainStep(w: World, ix: Instruction)
    requires ix.SystemTransfer? || ix.TokenTransfer?
    requires Apply(w, ix).Ok?
    ensures ChainStep(w, Apply(w, ix).value.world)
  {
  }

  lemma TickIsChainStep(w: World, seconds: nat)
    ensures ChainStep(w, Advance(w, Tick(seconds)).world)
  {
  }

  lemma ApplyIsChainStep(w: World, ix: Instruction)
    requires Apply(w, ix).Ok?
    ensures ChainStep(w, Apply(w, ix).value.world)
  {
    hide ChainStep, Apply;
    match ix
    case InitializeVault(_, _, _) => InitializeIsChainStep(w, ix);
    case MakeDeposit(_, _, _) => MakeDepositIsChainStep(w, ix);
    case DepositToken(_, _, _, _, _) => DepositTokenIsChainStep(w, ix);
    case Attest(_, _, _, _, _) => AttestIsChainStep(w, ix);
    case Release(_, _, _, _) => ReleaseIsChainStep(w, ix);
    case ReleaseToken(_, _, _, _, _) => ReleaseIsChainStep(w, ix);
    case Refund(_, _, _, _) => RefundIsChainStep(w, ix);
    case RefundToken(_, _, _, _, _) => RefundIsChainStep(w, ix);
    case _ => TransferIsChainStep(w, ix);
  }

  // The whole program, seen from its deposits and vaults.
  lemma AdvanceIsChainStep(w: World, step: Step)
    ensures ChainStep(w, Advance(w, step).world)
  {
    hide Apply;
    match step
    case Tick(seconds) => TickIsChainStep(w, seconds);
    case Call(ix) =>
      if Apply(w, ix).Ok? {
        ApplyIsChainStep(w, ix);
      }
  }

  // -------------------------------------------------------------------------
  // Order of states

  // `t` is `s` or lies ahead of `s`.
  predicate Ahead(s: DepositState, t: DepositState) {
    || s == t
    || s == Pending
    || (s == Approved && t == Released)
    || (s == Rejected && t == Refunded)
    || (s == Expired && t == Refunded)
  }

  // Deposits never disappear, keep their terms and only move ahead.
  ghost predicate Continues(w: World, w2: World) {
    && w.now <= w2.now
    && forall a :: a in w.deposits ==>
                     && a in w2.deposits
                     && SameTerms(w.deposits[a], w2.deposits[a])
                     && Ahead(w.deposits[a].state, w2.deposits[a].state)
  }

  lemma DepositStepContinues(w: World, a: Address, d: Deposit, d2: Deposit)
    requires DepositStep(w, a, d, d2)
    ensures SameTerms(d, d2) && Ahead(d.state, d2.state)
  {
  }

  lemma ChainStepContinues(w: World, w2: World)
    requires ChainStep(w, w2)
    ensures Continues(w, w2)
  {
    forall a | a in w.deposits
      ensures a in w2.deposits && SameTerms(w.deposits[a], w2.deposits[a])
              && Ahead(w.deposits[a].state, w2.deposits[a].state)
    {
      DepositStepContinues(w, a, w.deposits[a], w2.deposits[a]);
    }
  }

  lemma ContinuesTrans(w: World, w2: World, w3: World)
    requires Continues(w, w2) && Continues(w2, w3)
    ensures Continues(w, w3)
  {
  }

  lemma {:induction false} RunContinues(w: World, steps: seq<Step>)
    ensures Continues(w, Exec(w, steps))
  {
    if steps != [] {
      var before := steps[..|steps| - 1];
      RunContinues(w, before);
      AdvanceIsChainStep(Exec(w, before), steps[|steps| - 1]);
      ChainStepContinues(Exec(w, before), Exec(w, steps));
      ContinuesTrans(w, Exec(w, before), Exec(w, steps));
    }
  }
}
