// When a deposit can be settled, by whom, and what a settlement moves.
module Settlement {
  import opened Wrappers
  import opened Keys
  import opened Sums
  import opened Ledger
  import opened Vault
  import opened Lifecycle
  import opened Evidence
  import opened Solvency
  import opened Payouts

  ghost predicate SettledBy(w: World, ix: Instruction, a: Address) {
    Apply(w, ix).Ok? && a in Apply(w, ix).value.world.deposits && Settled(Apply(w, ix).value.world.deposits[a])
  }

  // A transfer error comes from the transfer itself.
  lemma ExitError(w: World, ix: Instruction)
    requires ix.Release? || ix.Refund?
    requires Apply(w, ix).Err? && Apply(w, ix).error.Transfer?
    ensures ix.deposit in w.deposits && !Settled(w.deposits[ix.deposit])
    ensures Move(w.lamports, ix.deposit, ix.target, w.deposits[ix.deposit].amount).Err?
  {
    hide Move;
  }

  // On a lamport deposit of a reachable state, neither exit ever fails for
  // want of funds or by overflow, whatever the target.
  lemma NoFundsError(w: World, ix: Instruction)
    requires Solvent(w) && (ix.Release? || ix.Refund?)
    requires ix.deposit in w.deposits && IsSol(w.deposits[ix.deposit])
    ensures !(Apply(w, ix).Err? && Apply(w, ix).error.Transfer?)
  {
    hide Apply, Move;
    var d := w.deposits[ix.deposit];
    assert SolCovered(w, ix.deposit);
    MoveSucceeds(w.lamports, ix.deposit, ix.target, d.amount);
    if Apply(w, ix).Err? && Apply(w, ix).error.Transfer? {
      ExitError(w, ix);
    }
  }

  lemma TokenExitError(w: World, ix: Instruction)
    requires ix.ReleaseToken? || ix.RefundToken?
    requires Apply(w, ix).Err? && Apply(w, ix).error.Transfer?
    ensures ix.deposit in w.deposits && !Settled(w.deposits[ix.deposit]) && w.deposits[ix.deposit].mint == ix.mint
    ensures ix.mint in w.mints && EscrowPda(ix.deposit) in w.tokens && w.tokens[EscrowPda(ix.deposit)].mint == ix.mint
    ensures ix.target in w.tokens && w.tokens[ix.target].mint == ix.mint
    ensures MoveTokens(w.tokens, EscrowPda(ix.deposit), ix.target, w.deposits[ix.deposit].amount).Err?
    ensures Apply(w, ix).error.cause
            == MoveTokens(w.tokens, EscrowPda(ix.deposit), ix.target, w.deposits[ix.deposit].amount).error
  {
    hide MoveTokens;
  }

  ghost predicate SuppliesFit(w: World) {
    forall mint :: TokenSupply(w.tokens, mint) <= U64_MAX
  }

  // On a token deposit of a reachable state neither exit ever fails for want of
  // tokens, and none by overflow while supplies fit in a u64.
  lemma NoTokenFundsError(w: World, ix: Instruction)
    requires Solvent(w) && (ix.ReleaseToken? || ix.RefundToken?)
    ensures Apply(w, ix).Err? ==> Apply(w, ix).error != Transfer(InsufficientFunds)
    ensures SuppliesFit(w) ==> !(Apply(w, ix).Err? && Apply(w, ix).error.Transfer?)
  {
    hide Apply;
    if Apply(w, ix).Err? && Apply(w, ix).error.Transfer? {
      TokenExitError(w, ix);
      assert TokenCovered(w, ix.deposit);
      if SuppliesFit(w) {
        assert TokenSupply(w.tokens, ix.mint) <= U64_MAX;
        MoveTokensSucceeds(w.tokens, EscrowPda(ix.deposit), ix.target, w.deposits[ix.deposit].amount);
      }
    }
  }

  lemma RefundWorks(w: World, a: Address, caller: Signer)
    requires Solvent(w) && a in w.deposits && IsSol(w.deposits[a])
    requires var d := w.deposits[a]; d.state == Rejected || (d.state == Pending && d.expireAt <= w.now)
    ensures SettledBy(w, Refund(caller, w.deposits[a].vault, a, w.deposits[a].refundAddr), a)
  {
    hide Move;
    assert SolCovered(w, a) && DepositOk(w, a);
    MoveSucceeds(w.lamports, a, w.deposits[a].refundAddr, w.deposits[a].amount);
  }

  lemma ReleaseWorks(w: World, a: Address, target: Address)
    requires Solvent(w) && a in w.deposits && IsSol(w.deposits[a])
    requires w.deposits[a].state == Approved && w.deposits[a].releaseAuthority.Wallet?
    ensures SettledBy(w, Release(w.deposits[a].releaseAuthority, w.deposits[a].vault, a, target), a)
  {
    hide Move;
    assert SolCovered(w, a) && DepositOk(w, a);
    MoveSucceeds(w.lamports, a, target, w.deposits[a].amount);
  }

  // An approved deposit changes only if its release authority signs.
  lemma ApprovedNeedsAuthority(w: World, a: Address, ix: Instruction)
    requires a in w.deposits && w.deposits[a].state == Approved && Apply(w, ix).Ok?
    ensures var w2 := Apply(w, ix).value.world;
            a in w2.deposits
            && (w2.deposits[a] == w.deposits[a] || SignerOf(ix) == w.deposits[a].releaseAuthority)
  {
    OneDepositChanges(w, ix);
    if ix.Refund? || ix.RefundToken? {
      RefundIsChainStep(w, ix);
    }
  }

  predicate AllSignedBy(steps: seq<Step>, signers: set<Signer>) {
    forall i :: 0 <= i < |steps| && steps[i].Call? ==> SignerOf(steps[i].ix) in signers
  }

  // Without its release authority among those who can sign, an approved deposit
  // stays as it is in every continuation.
  lemma {:induction false} StuckForever(w: World, steps: seq<Step>, a: Address, signers: set<Signer>)
    requires a in w.deposits && w.deposits[a].state == Approved && w.deposits[a].releaseAuthority !in signers
    requires AllSignedBy(steps, signers)
    ensures a in Exec(w, steps).deposits && Exec(w, steps).deposits[a] == w.deposits[a]
  {
    if steps != [] {
      var before, last := steps[..|steps| - 1], steps[|steps| - 1];
      StuckForever(w, before, a, signers);
      if last.Call? && Apply(Exec(w, before), last.ix).Ok? {
        ApprovedNeedsAuthority(Exec(w, before), a, last.ix);
      }
    }
  }

  ghost predicate CanSettle(w: World, a: Address, signers: set<Signer>) {
    exists ix :: SignerOf(ix) in signers && SettledBy(w, ix, a)
  }

  // In every run, whoever can sign: from its expiry on a lamport deposit can be
  // settled in one step by anybody unless it is approved, and then exactly if
  // its release authority is among those who can sign.
  lemma NothingStuck(w: World, steps: seq<Step>, a: Address, signers: set<Signer>)
    requires Genesis(w)
    requires var w2 := Exec(w, steps);
             a in w2.deposits && IsSol(w2.deposits[a]) && !Settled(w2.deposits[a]) && w2.deposits[a].expireAt <= w2.now
    ensures var w2 := Exec(w, steps);
            CanSettle(w2, a, signers)
            <==> if w2.deposits[a].state == Approved then w2.deposits[a].releaseAuthority in signers else signers != {}
  {
    AlwaysSolvent(w, steps);
    SettledIffSigned(Exec(w, steps), a, signers);
  }

  lemma SettledIffSigned(w: World, a: Address, signers: set<Signer>)
    requires Solvent(w) && a in w.deposits && IsSol(w.deposits[a])
    requires !Settled(w.deposits[a]) && w.deposits[a].expireAt <= w.now
    ensures CanSettle(w, a, signers)
            <==> if w.deposits[a].state == Approved then w.deposits[a].releaseAuthority in signers else signers != {}
  {
    hide Apply, SolCovered, TokenCovered;
    var d := w.deposits[a];
    assert DepositOk(w, a);
    if d.state != Approved {
      if caller :| caller in signers {
        RefundWorks(w, a, caller);
        assert SignerOf(Refund(caller, d.vault, a, d.refundAddr)) == caller;
      }
    } else if d.releaseAuthority in signers {
      ReleaseWorks(w, a, d.releaseAuthority);
      assert SignerOf(Release(d.releaseAuthority, d.vault, a, d.releaseAuthority)) == d.releaseAuthority;
    } else if ix :| SignerOf(ix) in signers && SettledBy(w, ix, a) {
      ApprovedNeedsAuthority(w, a, ix);
    }
  }

  // -------------------------------------------------------------------------
  // The same for token deposits

  lemma ReleaseTokenWorks(w: World, a: Address)
    requires Solvent(w) && SuppliesFit(w) && a in w.deposits && !IsSol(w.deposits[a])
    requires w.deposits[a].state == Approved && w.deposits[a].releaseAuthority.Wallet?
    ensures var d := w.deposits[a];
            SettledBy(w, ReleaseToken(d.releaseAuthority, d.vault, a, d.mint, EscrowPda(a)), a)
  {
    hide MoveTokens;
    var d := w.deposits[a];
    assert TokenCovered(w, a) && DepositOk(w, a) && TokenSupply(w.tokens, d.mint) <= U64_MAX;
    MoveTokensSucceeds(w.tokens, EscrowPda(a), EscrowPda(a), d.amount);
  }

  lemma RefundTokenWorks(w: World, a: Address, caller: Signer, target: Address)
    requires Solvent(w) && SuppliesFit(w) && a in w.deposits && !IsSol(w.deposits[a])
    requires var d := w.deposits[a];
             && (d.state == Rejected || (d.state == Pending && d.expireAt <= w.now))
             && target in w.tokens && w.tokens[target].mint == d.mint && w.tokens[target].owner == d.refundAddr
    ensures SettledBy(w, RefundToken(caller, w.deposits[a].vault, a, w.deposits[a].mint, target), a)
  {
    hide MoveTokens;
    var d := w.deposits[a];
    assert TokenCovered(w, a) && DepositOk(w, a) && TokenSupply(w.tokens, d.mint) <= U64_MAX;
    MoveTokensSucceeds(w.tokens, EscrowPda(a), target, d.amount);
  }

  // The lamport refund does not look at the mint.
  lemma LamportRefundWorks(w: World, a: Address, caller: Signer)
    requires WellFormed(w) && TotalLamports(w.lamports) <= U64_MAX && a in w.deposits
    requires var d := w.deposits[a];
             && (d.state == Rejected || (d.state == Pending && d.expireAt <= w.now))
             && d.amount <= Balance(w.lamports, a)
    ensures SettledBy(w, Refund(caller, w.deposits[a].vault, a, w.deposits[a].refundAddr), a)
  {
    hide Move;
    assert DepositOk(w, a);
    MoveSucceeds(w.lamports, a, w.deposits[a].refundAddr, w.deposits[a].amount);
  }

  ghost predicate HasTokenAccount(w: World, mint: Address, owner: Address) {
    exists t :: t in w.tokens && w.tokens[t].mint == mint && w.tokens[t].owner == owner
  }

  // Only a refund settles a deposit that is not approved.
  lemma OnlyRefundSettles(w: World, a: Address, ix: Instruction)
    requires a in w.deposits && !Settled(w.deposits[a]) && w.deposits[a].state != Approved && SettledBy(w, ix, a)
    ensures (ix.Refund? || ix.RefundToken?) && ix.deposit == a
  {
    hide Apply, ChainStep;
    OneDepositChanges(w, ix);
    if ix.Release? || ix.ReleaseToken? {
      ReleaseIsChainStep(w, ix);
    } else if ix.Attest? {
      AttestSettlesNothing(w, ix);
    } else if ix.MakeDeposit? || ix.DepositToken? {
      OpeningSettlesNothing(w, ix);
    }
  }

  lemma AttestSettlesNothing(w: World, ix: Instruction)
    requires ix.Attest? && Apply(w, ix).Ok?
    ensures ix.deposit in Apply(w, ix).value.world.deposits
    ensures !Settled(Apply(w, ix).value.world.deposits[ix.deposit])
  {
  }

  lemma OpeningSettlesNothing(w: World, ix: Instruction)
    requires (ix.MakeDeposit? || ix.DepositToken?) && Apply(w, ix).Ok?
    ensures Subject(ix).value !in w.deposits
  {
    hide Move, MoveTokens;
  }

  lemma RefundNeeds(w: World, a: Address, ix: Instruction)
    requires (ix.Refund? || ix.RefundToken?) && ix.deposit == a && Apply(w, ix).Ok?
    ensures a in w.deposits
    ensures ix.Refund? ==> w.deposits[a].amount <= Balance(w.lamports, a)
    ensures ix.RefundToken? ==> HasTokenAccount(w, w.deposits[a].mint, w.deposits[a].refundAddr)
  {
    if ix.RefundToken? {
      assert w.tokens[ix.target].mint == w.deposits[a].mint && w.tokens[ix.target].owner == w.deposits[a].refundAddr;
    }
  }

  lemma ApprovedTokenSettles(w: World, a: Address, signers: set<Signer>)
    requires Solvent(w) && SuppliesFit(w) && a in w.deposits && !IsSol(w.deposits[a])
    requires w.deposits[a].state == Approved
    ensures CanSettle(w, a, signers) <==> w.deposits[a].releaseAuthority in signers
  {
    hide Apply, Solvent, SuppliesFit;
    var d := w.deposits[a];
    if d.releaseAuthority in signers {
      ReleaseTokenWorks(w, a);
      assert SignerOf(ReleaseToken(d.releaseAuthority, d.vault, a, d.mint, EscrowPda(a))) == d.releaseAuthority;
    } else if ix :| SignerOf(ix) in signers && SettledBy(w, ix, a) {
      ApprovedNeedsAuthority(w, a, ix);
    }
  }

  lemma OtherTokenSettles(w: World, a: Address, caller: Signer)
    requires Solvent(w) && SuppliesFit(w) && a in w.deposits && !IsSol(w.deposits[a])
    requires var d := w.deposits[a]; d.state == Rejected || (d.state == Pending && d.expireAt <= w.now)
    requires var d := w.deposits[a];
             HasTokenAccount(w, d.mint, d.refundAddr) || d.amount <= Balance(w.lamports, a)
    ensures exists ix :: SignerOf(ix) == caller && SettledBy(w, ix, a)
  {
    hide Apply, SettledBy, SuppliesFit, TokenCovered, SolCovered;
    var d := w.deposits[a];
    if t :| t in w.tokens && w.tokens[t].mint == d.mint && w.tokens[t].owner == d.refundAddr {
      RefundTokenWorks(w, a, caller, t);
      assert SignerOf(RefundToken(caller, d.vault, a, d.mint, t)) == caller;
    } else {
      LamportRefundWorks(w, a, caller);
      assert SignerOf(Refund(caller, d.vault, a, d.refundAddr)) == caller;
    }
  }

  // Whoever can sign: an approved token deposit can be settled exactly by its
  // release authority, who can always name the escrow itself as the target; any
  // other by anybody, exactly if the refund address has a token account of the
  // mint or the deposit account holds the amount in lamports.
  lemma TokenSettledIff(w: World, a: Address, signers: set<Signer>)
    requires Solvent(w) && SuppliesFit(w) && a in w.deposits && !IsSol(w.deposits[a])
    requires !Settled(w.deposits[a]) && w.deposits[a].expireAt <= w.now
    ensures var d := w.deposits[a];
            CanSettle(w, a, signers)
            <==> if d.state == Approved then d.releaseAuthority in signers
                 else signers != {} && (HasTokenAccount(w, d.mint, d.refundAddr) || d.amount <= Balance(w.lamports, a))
  {
    hide Apply, TokenCovered, SolCovered, SuppliesFit, HasTokenAccount;
    var d := w.deposits[a];
    if d.state == Approved {
      ApprovedTokenSettles(w, a, signers);
    } else {
      assert DepositOk(w, a);
      if caller :| caller in signers
                   && (HasTokenAccount(w, d.mint, d.refundAddr) || d.amount <= Balance(w.lamports, a)) {
        OtherTokenSettles(w, a, caller);
      }
      if ix :| SignerOf(ix) in signers && SettledBy(w, ix, a) {
        OnlyRefundSettles(w, a, ix);
        RefundNeeds(w, a, ix);
      }
    }
  }

  // In every run from a fresh chain whose token supplies fit in a u64.
  lemma TokenNothingStuck(w: World, steps: seq<Step>, a: Address, signers: set<Signer>)
    requires Genesis(w) && SuppliesFit(w)
    requires var w2 := Exec(w, steps);
             a in w2.deposits && !IsSol(w2.deposits[a]) && !Settled(w2.deposits[a]) && w2.deposits[a].expireAt <= w2.now
    ensures var w2 := Exec(w, steps);
            var d := w2.deposits[a];
            CanSettle(w2, a, signers)
            <==> if d.state == Approved then d.releaseAuthority in signers
                 else signers != {}
                      && (HasTokenAccount(w2, d.mint, d.refundAddr) || d.amount <= Balance(w2.lamports, a))
  {
    hide Exec, Apply, CanSettle, HasTokenAccount;
    AlwaysSolvent(w, steps);
    SuppliesStayFit(w, steps);
    TokenSettledIff(Exec(w, steps), a, signers);
  }

  lemma SuppliesStayFit(w: World, steps: seq<Step>)
    requires Genesis(w) && SuppliesFit(w)
    ensures SuppliesFit(Exec(w, steps))
  {
    hide Exec;
    Conservation(w, steps);
    forall mint ensures TokenSupply(Exec(w, steps).tokens, mint) <= U64_MAX {
      assert TokenSupply(w.tokens, mint) <= U64_MAX;
    }
  }

  // -------------------------------------------------------------------------
  // What a settlement moves

  // The movement that settles the deposit at `a`.
  ghost predicate IsSettlement(w: World, e: Effect, a: Address, m: Movement) {
    e.moves == [m] && IsPayoutOf(m, a) && PayoutOk(w, e.world, m)
  }

  lemma SettlementShifts(w: World, e: Effect, a: Address, m: Movement)
    requires Explained(w, e) && IsSettlement(w, e, a, m) && m.amount > 0
    ensures Held(e.world, m.asset, m.from) == Held(w, m.asset, m.from) - (if m.to == m.from then 0 else m.amount)
    ensures Held(e.world, m.asset, m.to) == Held(w, m.asset, m.to) + (if m.to == m.from then 0 else m.amount)
  {
    SumSeqShort(m, m, m, NetAt(m.asset, m.from));
    SumSeqShort(m, m, m, NetAt(m.asset, m.to));
  }

  // When a step of any run settles a deposit, what the deposit account or escrow
  // holds falls by the amount, and the target's holding rises by it, exactly if
  // the target is another account.
  lemma SettlementPays(w: World, steps: seq<Step>, step: Step, a: Address) returns (m: Movement)
    requires Genesis(w) && JustSettled(Exec(w, steps), Advance(Exec(w, steps), step).world, a)
    ensures var before, e := Exec(w, steps), Advance(Exec(w, steps), step);
            && IsSettlement(before, e, a, m)
            && (Held(e.world, m.asset, m.from) == Held(before, m.asset, m.from) - m.amount <==> m.to != m.from)
            && (Held(e.world, m.asset, m.to) == Held(before, m.asset, m.to) + m.amount <==> m.to != m.from)
            && (m.to == m.from ==> Held(e.world, m.asset, m.from) == Held(before, m.asset, m.from))
  {
    var before, e := Exec(w, steps), Advance(Exec(w, steps), step);
    AlwaysSolvent(w, steps);
    StepFacts(before, step);
    AdvanceExplained(before, step);
    PaidIffSettled(before, e, a);
    assert DepositOk(before, a);
    m := e.moves[0];
    SettlementShifts(before, e, a, m);
  }

  // A settled deposit never pays again: what its account holds of lamports can
  // only grow, in every continuation.
  lemma {:induction false} SettledNeverPays(w: World, steps: seq<Step>, a: Address)
    requires MintsOk(w) && a.DepositPda? && a in w.deposits && Settled(w.deposits[a])
    ensures Balance(Exec(w, steps).lamports, a) >= Balance(w.lamports, a)
    ensures a in Exec(w, steps).deposits && Settled(Exec(w, steps).deposits[a])
  {
    if steps != [] {
      var before, last := steps[..|steps| - 1], steps[|steps| - 1];
      SettledNeverPays(w, before, a);
      Conservation(w, before);
      StepFacts(Exec(w, before), last);
      AdvanceExplained(Exec(w, before), last);
      SettledKeepsBalance(Exec(w, before), Advance(Exec(w, before), last), a);
    }
  }

  lemma SettledKeepsBalance(w: World, e: Effect, a: Address)
    requires MovesOk(w, e) && ChainStep(w, e.world) && Explained(w, e)
    requires a.DepositPda? && a in w.deposits && Settled(w.deposits[a])
    ensures Balance(e.world.lamports, a) >= Balance(w.lamports, a)
    ensures a in e.world.deposits && Settled(e.world.deposits[a])
  {
    PaidIffSettled(w, e, a);
    assert Held(e.world, DEFAULT_KEY, a) == Held(w, DEFAULT_KEY, a) + SumSeq(e.moves, NetAt(DEFAULT_KEY, a));
    NoDebitNoLoss(e.moves, DEFAULT_KEY, a);
  }

  // Nor does the escrow of a settled token deposit ever lose tokens again.
  lemma {:induction false} SettledEscrowKeeps(w: World, steps: seq<Step>, a: Address)
    requires Solvent(w) && a in w.deposits && Settled(w.deposits[a]) && !IsSol(w.deposits[a])
    ensures var e := EscrowPda(a);
            && e in w.tokens && e in Exec(w, steps).tokens
            && Exec(w, steps).tokens[e].amount >= w.tokens[e].amount
            && a in Exec(w, steps).deposits && Settled(Exec(w, steps).deposits[a])
            && Exec(w, steps).deposits[a].mint == w.deposits[a].mint
  {
    hide Advance;
    assert TokenCovered(w, a) && DepositOk(w, a);
    if steps != [] {
      var before, last := steps[..|steps| - 1], steps[|steps| - 1];
      var mid := Exec(w, before);
      SettledEscrowKeeps(w, before, a);
      AlwaysSolvent(w, before);
      StepFacts(mid, last);
      AdvanceExplained(mid, last);
      SettledKeepsEscrow(mid, Advance(mid, last), a);
    }
  }

  lemma SettledKeepsEscrow(w: World, e: Effect, a: Address)
    requires MovesOk(w, e) && ChainStep(w, e.world) && Explained(w, e)
    requires a.DepositPda? && a in w.deposits && Settled(w.deposits[a]) && !IsSol(w.deposits[a]) && TokenCovered(w, a)
    ensures var k := EscrowPda(a);
            k in e.world.tokens && e.world.tokens[k].amount >= w.tokens[k].amount
    ensures a in e.world.deposits && e.world.deposits[a] == w.deposits[a]
  {
    var mint, k := w.deposits[a].mint, EscrowPda(a);
    PaidIffSettled(w, e, a);
    assert Held(e.world, mint, k) == Held(w, mint, k) + SumSeq(e.moves, NetAt(mint, k));
    NoDebitNoLoss(e.moves, mint, k);
  }
}
