// Escrow coverage and payouts: every unsettled deposit is fully funded, every
// settled deposit was paid exactly once.
module Payouts {
  import opened Wrappers
  import opened Keys
  import opened Sums
  import opened Ledger
  import opened Vault
  import opened Lifecycle
  import opened Evidence
  import opened Solvency

  // A payout settles the deposit it names, for the whole amount, out of that
  // deposit's own account or escrow; a refund goes to its refund address.
  ghost predicate PayoutOk(w: World, w2: World, m: Movement)
    requires m.reason.Payout?
  {
    var a := m.reason.deposit;
    && a in w.deposits && a in w2.deposits
    && !Settled(w.deposits[a])
    && w2.deposits[a].state == m.reason.outcome
    && (m.reason.outcome == Released || m.reason.outcome == Refunded)
    && m.amount == w.deposits[a].amount
    && m.reason.mint == w.deposits[a].mint
    && (m.asset == DEFAULT_KEY ==>
          m.from == a && (m.reason.outcome == Refunded ==> m.to == w.deposits[a].refundAddr))
    && (m.asset != DEFAULT_KEY ==>
          && m.asset == w.deposits[a].mint && m.from == EscrowPda(a) && m.to in w.tokens
          && (m.reason.outcome == Refunded ==> w.tokens[m.to].owner == w.deposits[a].refundAddr))
  }

  // Any other debit is signed for by a key holder.
  ghost predicate SignedDebit(w: World, m: Movement) {
    if m.asset == DEFAULT_KEY then m.from.Wallet?
    else m.from in w.tokens && w.tokens[m.from].owner.Wallet?
  }

  predicate IsPayoutOf(m: Movement, a: Address) {
    m.reason.Payout? && m.reason.deposit == a
  }

  predicate JustSettled(w: World, w2: World, a: Address) {
    && a in w.deposits && a in w2.deposits
    && w.deposits[a].state != w2.deposits[a].state
    && Settled(w2.deposits[a])
  }

  predicate SameHolder(t: TokenAccount, t2: TokenAccount) {
    t2.mint == t.mint && t2.owner == t.owner
  }

  ghost predicate MovesOk(w: World, e: Effect) {
    && (forall i :: 0 <= i < |e.moves| && !e.moves[i].reason.Payout? ==> SignedDebit(w, e.moves[i]))
    && (forall i :: 0 <= i < |e.moves| && e.moves[i].reason.Payout? ==>
                      |e.moves| == 1 && PayoutOk(w, e.world, e.moves[i]))
    && (forall a :: JustSettled(w, e.world, a) ==> |e.moves| == 1 && IsPayoutOf(e.moves[0], a))
    && (forall t :: t in w.tokens ==> t in e.world.tokens && SameHolder(w.tokens[t], e.world.tokens[t]))
  }

  lemma ReleaseMovesOk(w: World, ix: Instruction)
    requires MintsOk(w) && ix.Release? && Apply(w, ix).Ok?
    ensures MovesOk(w, Apply(w, ix).value)
  {
  }

  lemma RefundMovesOk(w: World, ix: Instruction)
    requires MintsOk(w) && ix.Refund? && Apply(w, ix).Ok?
    ensures MovesOk(w, Apply(w, ix).value)
  {
  }

  lemma ReleaseTokenMovesOk(w: World, ix: Instruction)
    requires MintsOk(w) && ix.ReleaseToken? && Apply(w, ix).Ok?
    ensures MovesOk(w, Apply(w, ix).value)
  {
  }

  lemma RefundTokenMovesOk(w: World, ix: Instruction)
    requires MintsOk(w) && ix.RefundToken? && Apply(w, ix).Ok?
    ensures MovesOk(w, Apply(w, ix).value)
  {
  }

  lemma MakeDepositMovesOk(w: World, ix: Instruction)
    requires MintsOk(w) && ix.MakeDeposit? && Apply(w, ix).Ok?
    ensures MovesOk(w, Apply(w, ix).value)
  {
  }

  lemma DepositTokenMovesOk(w: World, ix: Instruction)
    requires MintsOk(w) && ix.DepositToken? && Apply(w, ix).Ok?
    ensures MovesOk(w, Apply(w, ix).value)
  {
  }

  lemma TokenTransferMovesOk(w: World, ix: Instruction)
    requires MintsOk(w) && ix.TokenTransfer? && Apply(w, ix).Ok?
    ensures MovesOk(w, Apply(w, ix).value)
  {
  }

  lemma OtherMovesOk(w: World, ix: Instruction)
    requires ix.InitializeVault? || ix.Attest? || ix.SystemTransfer?
    requires MintsOk(w) && Apply(w, ix).Ok?
    ensures MovesOk(w, Apply(w, ix).value)
  {
  }

  lemma ApplyMovesOk(w: World, ix: Instruction)
    requires MintsOk(w) && Apply(w, ix).Ok?
    ensures MovesOk(w, Apply(w, ix).value)
  {
    hide Apply, MovesOk;
    match ix
    case MakeDeposit(_, _, _) => MakeDepositMovesOk(w, ix);
    case DepositToken(_, _, _, _, _) => DepositTokenMovesOk(w, ix);
    case Release(_, _, _, _) => ReleaseMovesOk(w, ix);
    case Refund(_, _, _, _) => RefundMovesOk(w, ix);
    case ReleaseToken(_, _, _, _, _) => ReleaseTokenMovesOk(w, ix);
    case RefundToken(_, _, _, _, _) => RefundTokenMovesOk(w, ix);
    case TokenTransfer(_, _, _, _) => TokenTransferMovesOk(w, ix);
    case _ => OtherMovesOk(w, ix);
  }

  lemma AdvanceMovesOk(w: World, step: Step)
    requires MintsOk(w)
    ensures MovesOk(w, Advance(w, step))
  {
    hide Apply;
    if step.Call? && Apply(w, step.ix).Ok? {
      ApplyMovesOk(w, step.ix);
    }
  }

  // -------------------------------------------------------------------------
  // Coverage

  lemma {:induction false} NoDebitNoLoss(moves: seq<Movement>, asset: Address, a: Address)
    requires forall i :: 0 <= i < |moves| && moves[i].asset == asset ==> moves[i].from != a
    ensures SumSeq(moves, NetAt(asset, a)) >= 0
  {
    if moves != [] {
      NoDebitNoLoss(moves[..|moves| - 1], asset, a);
    }
  }

  lemma SolDepositStaysCovered(w: World, e: Effect, a: Address)
    requires Explained(w, e) && MovesOk(w, e) && e.world.rent == w.rent
    requires a.DepositPda? && a in w.deposits && SolCovered(w, a)
    requires a in e.world.deposits && SameTerms(w.deposits[a], e.world.deposits[a])
    requires Ahead(w.deposits[a].state, e.world.deposits[a].state)
    ensures SolCovered(e.world, a)
  {
    assert Held(e.world, DEFAULT_KEY, a) == Held(w, DEFAULT_KEY, a) + SumSeq(e.moves, NetAt(DEFAULT_KEY, a));
    if |e.moves| == 1 && IsPayoutOf(e.moves[0], a) {
      SumSeqShort(e.moves[0], e.moves[0], e.moves[0], NetAt(DEFAULT_KEY, a));
      assert e.moves == [e.moves[0]];
    } else {
      NoDebitNoLoss(e.moves, DEFAULT_KEY, a);
    }
  }

  lemma TokenDepositStaysCovered(w: World, e: Effect, a: Address)
    requires Explained(w, e) && MovesOk(w, e) && e.world.mints == w.mints
    requires a.DepositPda? && a in w.deposits && TokenCovered(w, a)
    requires a in e.world.deposits && SameTerms(w.deposits[a], e.world.deposits[a])
    requires Ahead(w.deposits[a].state, e.world.deposits[a].state)
    ensures TokenCovered(e.world, a)
  {
    var mint := w.deposits[a].mint;
    if mint != DEFAULT_KEY && !Settled(e.world.deposits[a]) {
      assert Held(e.world, mint, EscrowPda(a))
          == Held(w, mint, EscrowPda(a)) + SumSeq(e.moves, NetAt(mint, EscrowPda(a)));
      NoDebitNoLoss(e.moves, mint, EscrowPda(a));
    }
  }

  lemma NewSolDepositCovered(w: World, ix: Instruction)
    requires ix.MakeDeposit? && Apply(w, ix).Ok?
    ensures var key := DepositPda(ix.vault, ix.args.stealth, ix.args.ephemeral);
            key in Apply(w, ix).value.world.deposits
            && SolCovered(Apply(w, ix).value.world, key) && TokenCovered(Apply(w, ix).value.world, key)
  {
    var key := DepositPda(ix.vault, ix.args.stealth, ix.args.ephemeral);
    var rent := Shortfall(w.lamports, key, w.rent.deposit);
    var paid := Move(w.lamports, ix.depositor, key, rent).value;
    MoveEffect(w.lamports, ix.depositor, key, rent);
    MoveEffect(paid, ix.depositor, key, ix.args.amount);
  }

  lemma NewTokenDepositCovered(w: World, ix: Instruction)
    requires MintsOk(w) && ix.DepositToken? && Apply(w, ix).Ok?
    ensures var key := DepositPda(ix.vault, ix.args.stealth, ix.args.ephemeral);
            key in Apply(w, ix).value.world.deposits
            && SolCovered(Apply(w, ix).value.world, key) && TokenCovered(Apply(w, ix).value.world, key)
  {
    var key := DepositPda(ix.vault, ix.args.stealth, ix.args.ephemeral);
    var withEscrow := w.tokens[EscrowPda(key) := TokenAccount(ix.mint, key, 0)];
    MoveTokensEffect(withEscrow, ix.source, EscrowPda(key), ix.args.amount);
  }

  lemma OnlyDepositsOpen(w: World, ix: Instruction)
    requires Apply(w, ix).Ok? && !ix.MakeDeposit? && !ix.DepositToken?
    ensures Apply(w, ix).value.world.deposits.Keys == w.deposits.Keys
  {
    OneDepositChanges(w, ix);
    if ix.Release? || ix.ReleaseToken? {
      ReleaseIsChainStep(w, ix);
    } else if ix.Refund? || ix.RefundToken? {
      RefundIsChainStep(w, ix);
    }
  }

  lemma NewDepositCovered(w: World, step: Step, a: Address)
    requires MintsOk(w) && a !in w.deposits && a in Advance(w, step).world.deposits
    ensures SolCovered(Advance(w, step).world, a) && TokenCovered(Advance(w, step).world, a)
  {
    if step.ix.MakeDeposit? {
      MakeDepositIsChainStep(w, step.ix);
      NewSolDepositCovered(w, step.ix);
    } else if step.ix.DepositToken? {
      DepositTokenIsChainStep(w, step.ix);
      NewTokenDepositCovered(w, step.ix);
    } else {
      OnlyDepositsOpen(w, step.ix);
    }
  }

  lemma AdvanceKeepsSolvent(w: World, step: Step)
    requires Solvent(w)
    ensures Solvent(Advance(w, step).world)
  {
    var w2 := Advance(w, step).world;
    AdvanceIsChainStep(w, step);
    ChainStepKeepsWellFormed(w, w2);
    ChainStepContinues(w, w2);
    AdvanceExplained(w, step);
    AdvanceMovesOk(w, step);
    forall a | a in w2.deposits ensures SolCovered(w2, a) && TokenCovered(w2, a) {
      if a in w.deposits {
        assert DepositOk(w, a);
        SolDepositStaysCovered(w, Advance(w, step), a);
        TokenDepositStaysCovered(w, Advance(w, step), a);
      } else {
        NewDepositCovered(w, step, a);
      }
    }
  }

  // Escrow in every run: see SolCovered and TokenCovered.
  lemma {:induction false} AlwaysSolvent(w: World, steps: seq<Step>)
    requires Solvent(w)
    ensures Solvent(Exec(w, steps))
  {
    if steps != [] {
      var before := steps[..|steps| - 1];
      AlwaysSolvent(w, before);
      AdvanceKeepsSolvent(Exec(w, before), steps[|steps| - 1]);
    }
  }

  // From a fresh chain, at any time and whatever targets were chosen: the
  // lamports add up as they did, and every unsettled deposit is held in full.
  lemma EscrowHolds(w: World, steps: seq<Step>, a: Address)
    requires Genesis(w) && a in Exec(w, steps).deposits
    ensures TotalLamports(Exec(w, steps).lamports) == TotalLamports(w.lamports) <= U64_MAX
    ensures SolCovered(Exec(w, steps), a) && TokenCovered(Exec(w, steps), a)
  {
    AlwaysSolvent(w, steps);
    Conservation(w, steps);
  }

  // -------------------------------------------------------------------------
  // Payouts over whole runs

  function PayoutCount(a: Address, outcome: DepositState): Movement -> int {
    (m: Movement) => if IsPayoutOf(m, a) && m.reason.outcome == outcome then 1 else 0
  }

  lemma StepFacts(w: World, step: Step)
    requires MintsOk(w)
    ensures var e := Advance(w, step);
            MovesOk(w, e) && ChainStep(w, e.world) && Continues(w, e.world) && MintsOk(e.world)
  {
    AdvanceMovesOk(w, step);
    AdvanceIsChainStep(w, step);
    ChainStepContinues(w, Advance(w, step).world);
    AdvanceExplained(w, step);
  }

  // In one step a deposit is settled exactly when it is paid out.
  lemma PaidIffSettled(w: World, e: Effect, a: Address)
    requires MovesOk(w, e) && ChainStep(w, e.world)
    ensures JustSettled(w, e.world, a) ==>
              |e.moves| == 1 && e.moves == [e.moves[0]] && IsPayoutOf(e.moves[0], a)
              && PayoutOk(w, e.world, e.moves[0])
    ensures !JustSettled(w, e.world, a) ==> forall i :: 0 <= i < |e.moves| ==> !IsPayoutOf(e.moves[i], a)
    ensures a in w.deposits && Settled(w.deposits[a]) ==>
              a in e.world.deposits && e.world.deposits[a] == w.deposits[a]
    ensures a in w.deposits ==> a in e.world.deposits && e.world.deposits[a].mint == w.deposits[a].mint
    ensures a !in w.deposits && a in e.world.deposits ==> e.world.deposits[a].state == Pending
  {
    if a in w.deposits {
      assert DepositStep(w, a, w.deposits[a], e.world.deposits[a]);
    } else if a in e.world.deposits {
      assert IsOpened(w, a, e.world.deposits[a]);
    }
  }

  lemma EffectPayouts(w: World, e: Effect, a: Address, outcome: DepositState)
    requires MovesOk(w, e) && ChainStep(w, e.world)
    requires outcome == Released || outcome == Refunded
    ensures SumSeq(e.moves, PayoutCount(a, outcome))
            == (if a in e.world.deposits && e.world.deposits[a].state == outcome then 1 else 0)
               - (if a in w.deposits && w.deposits[a].state == outcome then 1 else 0)
  {
    PaidIffSettled(w, e, a);
    if JustSettled(w, e.world, a) {
      SumSeqShort(e.moves[0], e.moves[0], e.moves[0], PayoutCount(a, outcome));
    } else {
      NoPayoutNoCount(e.moves, a, outcome);
    }
  }

  lemma {:induction false} NoPayoutNoCount(moves: seq<Movement>, a: Address, outcome: DepositState)
    requires forall i :: 0 <= i < |moves| ==> !IsPayoutOf(moves[i], a)
    ensures SumSeq(moves, PayoutCount(a, outcome)) == 0
  {
    if moves != [] {
      NoPayoutNoCount(moves[..|moves| - 1], a, outcome);
    }
  }

  // A deposit is paid out once: in every run it has exactly one payout of the
  // kind its state names if it is settled, and none otherwise. Where that payout
  // goes is SettlementPays.
  lemma {:induction false} SinglePayout(w: World, steps: seq<Step>, a: Address, outcome: DepositState)
    requires Genesis(w) && (outcome == Released || outcome == Refunded)
    ensures var w2 := Exec(w, steps);
            SumSeq(Log(w, steps), PayoutCount(a, outcome))
            == (if a in w2.deposits && w2.deposits[a].state == outcome then 1 else 0)
  {
    if steps != [] {
      var before := steps[..|steps| - 1];
      SinglePayout(w, before, a, outcome);
      Conservation(w, before);
      StepFacts(Exec(w, before), steps[|steps| - 1]);
      EffectPayouts(Exec(w, before), Advance(Exec(w, before), steps[|steps| - 1]), a, outcome);
      SumSeqConcat(Log(w, before), Advance(Exec(w, before), steps[|steps| - 1]).moves, PayoutCount(a, outcome));
    }
  }

  // Value paid out in `asset`, and value owed to the settled deposits of `asset`.
  function PaidIn(asset: Address, outcome: DepositState): Movement -> int {
    (m: Movement) => if m.reason.Payout? && m.reason.outcome == outcome && m.asset == asset then m.amount else 0
  }

  // Value paid out for deposits of `asset`, in whatever asset it was paid.
  function PaidFor(asset: Address, outcome: DepositState): Movement -> int {
    (m: Movement) => if m.reason.Payout? && m.reason.outcome == outcome && m.reason.mint == asset then m.amount else 0
  }

  function SettledWorth(asset: Address, outcome: DepositState): Deposit -> int {
    (d: Deposit) => if d.state == outcome && d.mint == asset then d.amount else 0
  }

  ghost function TotalSettled(w: World, asset: Address, outcome: DepositState): int {
    SumBy(w.deposits, SettledWorth(asset, outcome))
  }

  lemma {:induction false} NoPayoutNoWorth(moves: seq<Movement>, f: Movement -> int)
    requires forall i :: 0 <= i < |moves| ==> f(moves[i]) == 0
    ensures SumSeq(moves, f) == 0
  {
    if moves != [] {
      NoPayoutNoWorth(moves[..|moves| - 1], f);
    }
  }

  lemma NoOtherPayout(w: World, e: Effect, subject: Option<Address>)
    requires MovesOk(w, e) && OnlyChanges(w, e.world, subject)
    requires subject.Some? ==> !JustSettled(w, e.world, subject.value)
    ensures forall i :: 0 <= i < |e.moves| ==> !e.moves[i].reason.Payout?
  {
    forall i | 0 <= i < |e.moves| ensures !e.moves[i].reason.Payout? {
      if e.moves[i].reason.Payout? {
        assert PayoutOk(w, e.world, e.moves[i]);
        assert JustSettled(w, e.world, e.moves[i].reason.deposit);
      }
    }
  }

  lemma QuietTotals(w: World, w2: World, a: Address, asset: Address, outcome: DepositState)
    requires OnlyChanges(w, w2, Some(a)) && !JustSettled(w, w2, a)
    requires outcome == Released || outcome == Refunded
    requires if a in w.deposits then Settled(w.deposits[a]) ==> w2.deposits[a] == w.deposits[a]
             else w2.deposits[a].state == Pending
    ensures TotalSettled(w2, asset, outcome) == TotalSettled(w, asset, outcome)
  {
    SumByPut(w.deposits, SettledWorth(asset, outcome), a, w2.deposits[a]);
  }

  lemma PaidTotals(w: World, e: Effect, a: Address, asset: Address, outcome: DepositState)
    requires OnlyChanges(w, e.world, Some(a))
    requires outcome == Released || outcome == Refunded
    requires |e.moves| == 1 && IsPayoutOf(e.moves[0], a) && PayoutOk(w, e.world, e.moves[0])
    requires SameTerms(w.deposits[a], e.world.deposits[a])
    ensures SumSeq(e.moves, PaidFor(asset, outcome))
            == TotalSettled(e.world, asset, outcome) - TotalSettled(w, asset, outcome)
  {
    SumSeqShort(e.moves[0], e.moves[0], e.moves[0], PaidFor(asset, outcome));
    assert e.moves == [e.moves[0]];
    SumByPut(w.deposits, SettledWorth(asset, outcome), a, e.world.deposits[a]);
  }

  lemma EffectTotals(w: World, e: Effect, subject: Option<Address>, asset: Address, outcome: DepositState)
    requires MovesOk(w, e) && ChainStep(w, e.world) && Continues(w, e.world) && OnlyChanges(w, e.world, subject)
    requires outcome == Released || outcome == Refunded
    ensures SumSeq(e.moves, PaidFor(asset, outcome))
            == TotalSettled(e.world, asset, outcome) - TotalSettled(w, asset, outcome)
  {
    if subject.Some? && JustSettled(w, e.world, subject.value) {
      PaidIffSettled(w, e, subject.value);
      PaidTotals(w, e, subject.value, asset, outcome);
    } else {
      NoOtherPayout(w, e, subject);
      NoPayoutNoWorth(e.moves, PaidFor(asset, outcome));
      if subject.Some? {
        PaidIffSettled(w, e, subject.value);
        QuietTotals(w, e.world, subject.value, asset, outcome);
      }
    }
  }

  lemma StepTotals(w: World, step: Step, asset: Address, outcome: DepositState)
    requires MintsOk(w) && (outcome == Released || outcome == Refunded)
    ensures var e := Advance(w, step);
            SumSeq(e.moves, PaidFor(asset, outcome))
            == TotalSettled(e.world, asset, outcome) - TotalSettled(w, asset, outcome)
  {
    StepFacts(w, step);
    if step.Call? && Apply(w, step.ix).Ok? {
      OneDepositChanges(w, step.ix);
      EffectTotals(w, Advance(w, step), Subject(step.ix), asset, outcome);
    } else {
      EffectTotals(w, Advance(w, step), None, asset, outcome);
    }
  }

  // In every run, the value paid out for deposits of an asset is exactly the
  // worth of its settled deposits, release by release and refund by refund.
  lemma {:induction false} PaidForTotals(w: World, steps: seq<Step>, asset: Address, outcome: DepositState)
    requires Genesis(w) && (outcome == Released || outcome == Refunded)
    ensures SumSeq(Log(w, steps), PaidFor(asset, outcome)) == TotalSettled(Exec(w, steps), asset, outcome)
  {
    if steps != [] {
      var before := steps[..|steps| - 1];
      PaidForTotals(w, before, asset, outcome);
      Conservation(w, before);
      StepTotals(Exec(w, before), steps[|steps| - 1], asset, outcome);
      SumSeqConcat(Log(w, before), Advance(Exec(w, before), steps[|steps| - 1]).moves, PaidFor(asset, outcome));
    }
  }

  // -------------------------------------------------------------------------
  // The lamport instructions do not look at the mint of a deposit

  predicate IsSolExit(step: Step) {
    step.Call? && (step.ix.Release? || step.ix.Refund?)
  }

  // The lamport exits are only used on lamport deposits.
  ghost predicate SolExitsFitMint(w: World, steps: seq<Step>) {
    forall i :: 0 <= i < |steps| ==> SolExitFits(Exec(w, steps[..i]), steps[i])
  }

  predicate SolExitFits(w: World, step: Step) {
    IsSolExit(step) && Apply(w, step.ix).Ok? && step.ix.deposit in w.deposits ==> IsSol(w.deposits[step.ix.deposit])
  }

  predicate PaidInKind(m: Movement) {
    m.reason.Payout? ==> m.asset == m.reason.mint
  }

  ghost predicate AllPaidInKind(log: seq<Movement>) {
    forall i :: 0 <= i < |log| ==> PaidInKind(log[i])
  }

  // A payout in another asset than the deposit's can only be lamports.
  ghost predicate LogOk(log: seq<Movement>) {
    forall i :: 0 <= i < |log| && log[i].reason.Payout? ==>
                  && log[i].amount > 0
                  && (log[i].reason.outcome == Released || log[i].reason.outcome == Refunded)
                  && (log[i].asset == DEFAULT_KEY || log[i].asset == log[i].reason.mint)
  }

  lemma MovesLogOk(w: World, e: Effect)
    requires Solvent(w) && MovesOk(w, e)
    ensures LogOk(e.moves)
  {
    forall i | 0 <= i < |e.moves| && e.moves[i].reason.Payout?
      ensures PayoutOk(w, e.world, e.moves[i]) && DepositOk(w, e.moves[i].reason.deposit)
    {
    }
  }

  lemma StepPaidInKind(w: World, step: Step)
    requires MintsOk(w)
    ensures SolExitFits(w, step) <==> AllPaidInKind(Advance(w, step).moves)
  {
    if IsSolExit(step) && Apply(w, step.ix).Ok? {
      SolExitMoves(w, step.ix);
    } else {
      OtherMovesInKind(w, step);
    }
  }

  lemma SolExitMoves(w: World, ix: Instruction)
    requires (ix.Release? || ix.Refund?) && Apply(w, ix).Ok?
    ensures var e := Apply(w, ix).value;
            ix.deposit in w.deposits && |e.moves| == 1 && e.moves[0].reason.Payout?
            && e.moves[0].asset == DEFAULT_KEY && e.moves[0].reason.mint == w.deposits[ix.deposit].mint
  {
  }

  lemma TokenExitMoves(w: World, ix: Instruction)
    requires MintsOk(w) && (ix.ReleaseToken? || ix.RefundToken?) && Apply(w, ix).Ok?
    ensures AllPaidInKind(Apply(w, ix).value.moves)
  {
  }

  lemma OpeningMoves(w: World, ix: Instruction)
    requires (ix.MakeDeposit? || ix.DepositToken?) && Apply(w, ix).Ok?
    ensures AllPaidInKind(Apply(w, ix).value.moves)
  {
  }

  lemma OtherMovesInKind(w: World, step: Step)
    requires MintsOk(w)
    requires !IsSolExit(step) || Apply(w, step.ix).Err?
    ensures AllPaidInKind(Advance(w, step).moves)
  {
    if step.Call? && Apply(w, step.ix).Ok? {
      if step.ix.ReleaseToken? || step.ix.RefundToken? {
        TokenExitMoves(w, step.ix);
      } else if step.ix.MakeDeposit? || step.ix.DepositToken? {
        OpeningMoves(w, step.ix);
      }
    }
  }

  lemma {:induction false} RunPaidInKind(w: World, steps: seq<Step>)
    requires Solvent(w)
    ensures SolExitsFitMint(w, steps) <==> AllPaidInKind(Log(w, steps))
    ensures LogOk(Log(w, steps))
  {
    if steps != [] {
      var before, last := steps[..|steps| - 1], steps[|steps| - 1];
      RunPaidInKind(w, before);
      AlwaysSolvent(w, before);
      StepPaidInKind(Exec(w, before), last);
      AdvanceMovesOk(Exec(w, before), last);
      MovesLogOk(Exec(w, before), Advance(Exec(w, before), last));
      SplitFits(w, steps);
      SplitInKind(Log(w, before), Advance(Exec(w, before), last).moves);
    }
  }

  lemma SplitFits(w: World, steps: seq<Step>)
    requires steps != []
    ensures var before := steps[..|steps| - 1];
            SolExitsFitMint(w, steps)
            <==> SolExitsFitMint(w, before) && SolExitFits(Exec(w, before), steps[|steps| - 1])
  {
    var before := steps[..|steps| - 1];
    forall i | 0 <= i < |before| ensures before[..i] == steps[..i] {
    }
    if SolExitsFitMint(w, steps) {
      forall i | 0 <= i < |before| ensures SolExitFits(Exec(w, before[..i]), before[i]) {
        assert SolExitFits(Exec(w, steps[..i]), steps[i]);
      }
    }
    if SolExitsFitMint(w, before) && SolExitFits(Exec(w, before), steps[|steps| - 1]) {
      forall i | 0 <= i < |steps| ensures SolExitFits(Exec(w, steps[..i]), steps[i]) {
        if i < |before| {
          assert SolExitFits(Exec(w, before[..i]), before[i]);
        }
      }
    }
  }

  lemma SplitInKind(a: seq<Movement>, b: seq<Movement>)
    ensures AllPaidInKind(a + b) <==> AllPaidInKind(a) && AllPaidInKind(b)
  {
    if AllPaidInKind(a + b) {
      forall i | 0 <= i < |b| ensures PaidInKind(b[i]) {
        assert (a + b)[|a| + i] == b[i];
      }
      forall i | 0 <= i < |a| ensures PaidInKind(a[i]) {
        assert (a + b)[i] == a[i];
      }
    }
  }

  lemma {:induction false} PaidInAtMostPaidFor(log: seq<Movement>, asset: Address, outcome: DepositState)
    requires LogOk(log) && asset != DEFAULT_KEY
    ensures SumSeq(log, PaidIn(asset, outcome)) <= SumSeq(log, PaidFor(asset, outcome))
    ensures (exists i :: 0 <= i < |log| && !PaidInKind(log[i]) && log[i].reason.mint == asset
                         && log[i].reason.outcome == outcome)
            ==> SumSeq(log, PaidIn(asset, outcome)) < SumSeq(log, PaidFor(asset, outcome))
  {
    if log != [] {
      PaidInAtMostPaidFor(log[..|log| - 1], asset, outcome);
    }
  }

  lemma {:induction false} InKindPaidInIsPaidFor(log: seq<Movement>, asset: Address, outcome: DepositState)
    requires AllPaidInKind(log)
    ensures SumSeq(log, PaidIn(asset, outcome)) == SumSeq(log, PaidFor(asset, outcome))
  {
    if log != [] {
      assert PaidInKind(log[|log| - 1]);
      InKindPaidInIsPaidFor(log[..|log| - 1], asset, outcome);
    }
  }

  ghost predicate TotalsMatch(w: World, steps: seq<Step>, asset: Address, outcome: DepositState) {
    SumSeq(Log(w, steps), PaidIn(asset, outcome)) == TotalSettled(Exec(w, steps), asset, outcome)
  }

  // For every asset, what release paid out in it and what refund paid out in it
  // equal the worth of its released and of its refunded deposits, exactly as
  // long as no lamport exit was used on a token deposit.
  lemma PayoutTotals(w: World, steps: seq<Step>)
    requires Genesis(w)
    ensures SolExitsFitMint(w, steps)
            <==> forall asset :: TotalsMatch(w, steps, asset, Released) && TotalsMatch(w, steps, asset, Refunded)
  {
    RunPaidInKind(w, steps);
    var log := Log(w, steps);
    if AllPaidInKind(log) {
      forall asset ensures TotalsMatch(w, steps, asset, Released) && TotalsMatch(w, steps, asset, Refunded) {
        InKindPaidInIsPaidFor(log, asset, Released);
        InKindPaidInIsPaidFor(log, asset, Refunded);
        PaidForTotals(w, steps, asset, Released);
        PaidForTotals(w, steps, asset, Refunded);
      }
    } else {
      var i :| 0 <= i < |log| && !PaidInKind(log[i]);
      var asset, outcome := log[i].reason.mint, log[i].reason.outcome;
      PaidInAtMostPaidFor(log, asset, outcome);
      PaidForTotals(w, steps, asset, outcome);
      assert !TotalsMatch(w, steps, asset, outcome);
    }
  }
}
