// Where the contents of every vault and deposit come from: the instructions of
// the run, field by field.
module Origins {
  import opened Wrappers
  import opened Keys
  import opened Ledger
  import opened Vault
  import opened Lifecycle
  import opened Evidence
  import opened Solvency
  import opened Payouts

  // -------------------------------------------------------------------------
  // Deposits

  // The instruction opens the deposit at `a`.
  predicate Opens(ix: Instruction, a: Address) {
    (ix.MakeDeposit? || ix.DepositToken?) && a == DepositPda(ix.vault, ix.args.stealth, ix.args.ephemeral)
  }

  // The deposit is the one the instruction asked for at time `now`.
  predicate AsOrdered(d: Deposit, ix: Instruction, now: I64)
    requires ix.MakeDeposit? || ix.DepositToken?
  {
    && d.vault == ix.vault && d.depositor == ix.depositor
    && (ix.MakeDeposit? ==> d.mint == DEFAULT_KEY) && (ix.DepositToken? ==> d.mint == ix.mint)
    && d.amount == ix.args.amount
    && d.refundAddr == ix.args.refundAddr && d.releaseAuthority == ix.args.releaseAuthority
    && d.stealth == ix.args.stealth && d.ephemeral == ix.args.ephemeral && d.viewTag == ix.args.viewTag
    && d.createdAt == now
    && (if now + ix.args.expireSeconds <= I64_MAX then d.expireAt - d.createdAt == ix.args.expireSeconds
        else d.expireAt == I64_MAX)
  }

  // Step i of the run opened the deposit at `a`, as ordered.
  ghost predicate OpenedBy(w: World, steps: seq<Step>, i: nat, a: Address, d: Deposit) {
    && i < |steps| && steps[i].Call? && Opens(steps[i].ix, a)
    && Apply(Exec(w, steps[..i]), steps[i].ix).Ok?
    && AsOrdered(d, steps[i].ix, Exec(w, steps[..i]).now)
  }

  lemma OpeningIsAsOrdered(w: World, ix: Instruction, a: Address)
    requires Opens(ix, a) && Apply(w, ix).Ok?
    ensures a !in w.deposits && a in Apply(w, ix).value.world.deposits
    ensures AsOrdered(Apply(w, ix).value.world.deposits[a], ix, w.now)
  {
    hide Move, MoveTokens;
  }

  lemma OnlyOpeningsOpen(w: World, step: Step, a: Address)
    requires a !in w.deposits && a in Advance(w, step).world.deposits
    ensures step.Call? && Apply(w, step.ix).Ok? && Opens(step.ix, a)
  {
    hide Apply;
    if step.Call? && Apply(w, step.ix).Ok? {
      OneDepositChanges(w, step.ix);
      if !step.ix.MakeDeposit? && !step.ix.DepositToken? {
        OnlyDepositsOpen(w, step.ix);
      }
    }
  }

  lemma TermsStay(d: Deposit, d2: Deposit, ix: Instruction, now: I64)
    requires ix.MakeDeposit? || ix.DepositToken?
    requires AsOrdered(d, ix, now) && SameTerms(d, d2)
    ensures AsOrdered(d2, ix, now)
  {
  }

  lemma OpenedEarlier(w: World, steps: seq<Step>, more: Step, i: nat, a: Address, d: Deposit)
    requires OpenedBy(w, steps, i, a, d)
    ensures OpenedBy(w, steps + [more], i, a, d)
  {
    hide Exec, Apply, AsOrdered;
    assert (steps + [more])[..i] == steps[..i];
  }

  // In every run, every deposit was opened by a deposit instruction of the run and
  // is, in every term, what that instruction asked for.
  lemma {:induction false} DepositOrigin(w: World, steps: seq<Step>, a: Address) returns (i: nat)
    requires Genesis(w) && a in Exec(w, steps).deposits
    ensures OpenedBy(w, steps, i, a, Exec(w, steps).deposits[a])
  {
    hide Apply, AsOrdered;
    var before, last := steps[..|steps| - 1], steps[|steps| - 1];
    var mid := Exec(w, before);
    assert steps == before + [last];
    if a in mid.deposits {
      i := DepositOrigin(w, before, a);
      AdvanceIsChainStep(mid, last);
      ChainStepContinues(mid, Exec(w, steps));
      TermsStay(mid.deposits[a], Exec(w, steps).deposits[a], before[i].ix, Exec(w, before[..i]).now);
      OpenedEarlier(w, before, last, i, a, Exec(w, steps).deposits[a]);
    } else {
      i := |before|;
      OnlyOpeningsOpen(mid, last, a);
      OpeningIsAsOrdered(mid, last.ix, a);
      assert steps[..i] == before;
    }
  }

  // No other instruction of the run opened it.
  lemma OpenedOnce(w: World, steps: seq<Step>, i: nat, j: nat, a: Address, d: Deposit, d2: Deposit)
    requires OpenedBy(w, steps, i, a, d) && OpenedBy(w, steps, j, a, d2)
    ensures i == j
  {
    if i < j {
      OpenedStays(w, steps, i, j, a, d);
      OpeningIsAsOrdered(Exec(w, steps[..j]), steps[j].ix, a);
    } else if j < i {
      OpenedStays(w, steps, j, i, a, d2);
      OpeningIsAsOrdered(Exec(w, steps[..i]), steps[i].ix, a);
    }
  }

  lemma {:induction false} OpenedStays(w: World, steps: seq<Step>, i: nat, j: nat, a: Address, d: Deposit)
    requires OpenedBy(w, steps, i, a, d) && i < j <= |steps|
    ensures a in Exec(w, steps[..j]).deposits
  {
    hide Apply, AsOrdered;
    var before := steps[..j - 1];
    assert steps[..j][..j - 1] == before && steps[..j][j - 1] == steps[j - 1];
    if i == j - 1 {
      OpeningIsAsOrdered(Exec(w, before), steps[i].ix, a);
    } else {
      OpenedStays(w, steps, i, j - 1, a, d);
      AdvanceIsChainStep(Exec(w, before), steps[j - 1]);
      ChainStepContinues(Exec(w, before), Exec(w, steps[..j]));
    }
  }

  // -------------------------------------------------------------------------
  // Payouts

  // A payout as the depositor ordered it and the settling instruction asked for.
  ghost predicate PaidAsOrdered(w: World, order: Instruction, ix: Instruction, m: Movement) {
    && m.reason.Payout? && (order.MakeDeposit? || order.DepositToken?)
    && m.amount == order.args.amount
    && (m.reason.outcome == Released ==>
          && (ix.Release? || ix.ReleaseToken?) && ix.deposit == m.reason.deposit && m.to == ix.target
          && SignerOf(ix) == order.args.releaseAuthority)
    && (m.reason.outcome == Refunded ==>
          && (ix.Refund? || ix.RefundToken?) && ix.deposit == m.reason.deposit && m.to == ix.target
          && (if ix.Refund? then m.to == order.args.refundAddr
              else m.to in w.tokens && w.tokens[m.to].owner == order.args.refundAddr))
    && (m.reason.outcome == Released || m.reason.outcome == Refunded)
    && m.asset == (if ix.Release? || ix.Refund? then DEFAULT_KEY
                   else if order.DepositToken? then order.mint else DEFAULT_KEY)
  }

  lemma ReleasePays(w: World, ix: Instruction)
    requires (ix.Release? || ix.ReleaseToken?) && Apply(w, ix).Ok?
    ensures ix.deposit in w.deposits
    ensures var d := w.deposits[ix.deposit];
            && SignerOf(ix) == d.releaseAuthority
            && Apply(w, ix).value.moves
               == [Movement(if ix.Release? then DEFAULT_KEY else d.mint,
                            if ix.Release? then ix.deposit else EscrowPda(ix.deposit),
                            ix.target, d.amount, Payout(Released, ix.deposit, d.mint))]
  {
    hide Move, MoveTokens;
  }

  lemma RefundPays(w: World, ix: Instruction)
    requires (ix.Refund? || ix.RefundToken?) && Apply(w, ix).Ok?
    ensures ix.deposit in w.deposits
    ensures var d := w.deposits[ix.deposit];
            && (ix.Refund? ==> ix.target == d.refundAddr)
            && (ix.RefundToken? ==> ix.target in w.tokens && w.tokens[ix.target].owner == d.refundAddr)
            && Apply(w, ix).value.moves
               == [Movement(if ix.Refund? then DEFAULT_KEY else d.mint,
                            if ix.Refund? then ix.deposit else EscrowPda(ix.deposit),
                            ix.target, d.amount, Payout(Refunded, ix.deposit, d.mint))]
  {
    hide Move, MoveTokens;
  }

  lemma OnlyExitsPay(w: World, ix: Instruction, k: nat)
    requires Apply(w, ix).Ok? && k < |Apply(w, ix).value.moves| && Apply(w, ix).value.moves[k].reason.Payout?
    ensures ix.Release? || ix.ReleaseToken? || ix.Refund? || ix.RefundToken?
  {
    hide Move, MoveTokens;
  }

  // Every payout of every run: the amount the depositor ordered, to the target the
  // instruction names; a release is signed by the release authority named when the
  // deposit was opened, a refund goes to the refund address named then.
  lemma PayoutOrigin(w: World, steps: seq<Step>, step: Step, k: nat) returns (i: nat)
    requires Genesis(w)
    requires k < |Advance(Exec(w, steps), step).moves| && Advance(Exec(w, steps), step).moves[k].reason.Payout?
    ensures var before, m := Exec(w, steps), Advance(Exec(w, steps), step).moves[k];
            && m.reason.deposit in before.deposits && step.Call?
            && OpenedBy(w, steps, i, m.reason.deposit, before.deposits[m.reason.deposit])
            && PaidAsOrdered(before, steps[i].ix, step.ix, m)
  {
    hide Exec, Apply;
    var before := Exec(w, steps);
    OnlyExitsPay(before, step.ix, k);
    if step.ix.Release? || step.ix.ReleaseToken? {
      ReleasePays(before, step.ix);
    } else {
      RefundPays(before, step.ix);
    }
    i := DepositOrigin(w, steps, step.ix.deposit);
  }

  // In the log of every run, every lamport refund went to the refund address named
  // when its deposit was opened.
  lemma {:induction false} RefundsGoAsOrdered(w: World, steps: seq<Step>, k: nat) returns (i: nat)
    requires Genesis(w) && k < |Log(w, steps)|
    requires var m := Log(w, steps)[k]; m.asset == DEFAULT_KEY && m.reason.Payout? && m.reason.outcome == Refunded
    ensures var m := Log(w, steps)[k];
            && i < |steps| && steps[i].Call? && Opens(steps[i].ix, m.reason.deposit)
            && m.to == steps[i].ix.args.refundAddr && m.amount == steps[i].ix.args.amount
  {
    hide Advance, AsOrdered;
    var before, last := steps[..|steps| - 1], steps[|steps| - 1];
    if k < |Log(w, before)| {
      i := RefundsGoAsOrdered(w, before, k);
    } else {
      Conservation(w, before);
      i := PayoutOrigin(w, before, last, k - |Log(w, before)|);
      RefundAsset(Exec(w, before), last, k - |Log(w, before)|);
    }
  }

  lemma RefundAsset(w: World, step: Step, k: nat)
    requires MintsOk(w) && k < |Advance(w, step).moves|
    requires Advance(w, step).moves[k].reason.Payout? && Advance(w, step).moves[k].asset == DEFAULT_KEY
    ensures step.Call? && !step.ix.RefundToken? && !step.ix.ReleaseToken?
  {
    hide Move, MoveTokens;
  }

  // -------------------------------------------------------------------------
  // Votes

  // The vote a step casts on the deposit at `a`.
  function VoteOf(w: World, step: Step, a: Address): seq<Attestation> {
    if step.Call? && step.ix.Attest? && step.ix.deposit == a && Apply(w, step.ix).Ok?
    then [Attestation(oracle := step.ix.oracle, verdict := step.ix.verdict, timestamp := w.now,
                      evidence := step.ix.evidence)]
    else []
  }

  function VotesCast(w: World, steps: seq<Step>, a: Address): seq<Attestation> {
    if steps == [] then []
    else
      VotesCast(w, steps[..|steps| - 1], a)
      + VoteOf(Exec(w, steps[..|steps| - 1]), steps[|steps| - 1], a)
  }

  lemma VoteAppends(w: World, ix: Instruction)
    requires ix.Attest? && Apply(w, ix).Ok?
    ensures ix.deposit in w.deposits && ix.deposit in Apply(w, ix).value.world.deposits
    ensures Apply(w, ix).value.world.deposits[ix.deposit].attestations
            == w.deposits[ix.deposit].attestations + VoteOf(w, Call(ix), ix.deposit)
  {
  }

  lemma ExitKeepsVotes(w: World, ix: Instruction)
    requires (ix.Release? || ix.ReleaseToken? || ix.Refund? || ix.RefundToken?) && Apply(w, ix).Ok?
    ensures ix.deposit in w.deposits && ix.deposit in Apply(w, ix).value.world.deposits
    ensures Apply(w, ix).value.world.deposits[ix.deposit].attestations == w.deposits[ix.deposit].attestations
  {
    hide Apply;
    if ix.Release? || ix.ReleaseToken? {
      ReleaseIsChainStep(w, ix);
    } else {
      RefundIsChainStep(w, ix);
    }
  }

  lemma StepVotes(w: World, step: Step, a: Address)
    requires a in w.deposits
    ensures a in Advance(w, step).world.deposits
    ensures Advance(w, step).world.deposits[a].attestations == w.deposits[a].attestations + VoteOf(w, step, a)
  {
    hide Apply;
    if step.Call? && Apply(w, step.ix).Ok? {
      OneDepositChanges(w, step.ix);
      if Subject(step.ix) == Some(a) {
        if step.ix.Attest? {
          VoteAppends(w, step.ix);
        } else if step.ix.MakeDeposit? || step.ix.DepositToken? {
          OpeningIsAsOrdered(w, step.ix, a);
        } else {
          ExitKeepsVotes(w, step.ix);
        }
      }
    }
  }

  lemma NewHasNoVotes(w: World, step: Step, a: Address)
    requires a !in w.deposits && a in Advance(w, step).world.deposits
    ensures Advance(w, step).world.deposits[a].attestations == []
  {
    hide Advance;
    AdvanceIsChainStep(w, step);
    assert IsOpened(w, a, Advance(w, step).world.deposits[a]);
  }

  lemma NoVoteOnNothing(w: World, step: Step, a: Address)
    requires a !in w.deposits
    ensures VoteOf(w, step, a) == []
  {
  }

  // In every run the votes on a deposit are, in order, the successful attest
  // instructions on it, each with its oracle, verdict, evidence and the clock at
  // which it was executed.
  lemma {:induction false} VotesAreCast(w: World, steps: seq<Step>, a: Address)
    requires Genesis(w)
    ensures if a in Exec(w, steps).deposits
            then Exec(w, steps).deposits[a].attestations == VotesCast(w, steps, a)
            else VotesCast(w, steps, a) == []
  {
    hide Advance, VoteOf;
    if steps != [] {
      var before, last := steps[..|steps| - 1], steps[|steps| - 1];
      var mid := Exec(w, before);
      VotesAreCast(w, before, a);
      if a in mid.deposits {
        StepVotes(mid, last, a);
      } else {
        NoVoteOnNothing(mid, last, a);
        if a in Exec(w, steps).deposits {
          NewHasNoVotes(mid, last, a);
        }
      }
    }
  }

  // -------------------------------------------------------------------------
  // Vaults

  predicate OpensIn(ix: Instruction, vault: Address) {
    (ix.MakeDeposit? || ix.DepositToken?) && ix.vault == vault
  }

  // Successful deposit instructions in one vault.
  function Openings(w: World, steps: seq<Step>, vault: Address): nat {
    if steps == [] then 0
    else
      var before, last := steps[..|steps| - 1], steps[|steps| - 1];
      Openings(w, before, vault)
      + (if last.Call? && OpensIn(last.ix, vault) && Apply(Exec(w, before), last.ix).Ok? then 1 else 0)
  }

  // The vault is the one its initialisation asked for.
  ghost predicate InitializedBy(w: World, steps: seq<Step>, i: nat, vault: Address, v: Vault) {
    && i < |steps| && steps[i].Call? && steps[i].ix.InitializeVault? && vault == VaultPda(steps[i].ix.authority)
    && Apply(Exec(w, steps[..i]), steps[i].ix).Ok?
    && v.authority == steps[i].ix.authority && v.oracleSet == steps[i].ix.oracleSet
    && v.minAttestations == steps[i].ix.minAttestations && !v.paused
  }

  lemma OpeningCounts(w: World, ix: Instruction)
    requires (ix.MakeDeposit? || ix.DepositToken?) && Apply(w, ix).Ok?
    ensures ix.vault in w.vaults
    ensures var v := w.vaults[ix.vault];
            Apply(w, ix).value.world.vaults
            == w.vaults[ix.vault := v.(depositCount := if v.depositCount < U64_MAX then v.depositCount + 1 else U64_MAX)]
  {
    hide Move, MoveTokens;
  }

  lemma InitializeAdds(w: World, ix: Instruction)
    requires ix.InitializeVault? && Apply(w, ix).Ok?
    ensures var key := VaultPda(ix.authority);
            && key !in w.vaults && key in Apply(w, ix).value.world.vaults
            && Apply(w, ix).value.world.vaults == w.vaults[key := Apply(w, ix).value.world.vaults[key]]
            && var v := Apply(w, ix).value.world.vaults[key];
               v.authority == ix.authority && v.oracleSet == ix.oracleSet && v.minAttestations == ix.minAttestations
               && v.depositCount == 0 && !v.paused
  {
    hide Move;
  }

  lemma OthersKeepVaults(w: World, ix: Instruction)
    requires !ix.InitializeVault? && !ix.MakeDeposit? && !ix.DepositToken? && Apply(w, ix).Ok?
    ensures Apply(w, ix).value.world.vaults == w.vaults
  {
    hide Move, MoveTokens;
  }

  lemma StepVaults(w: World, step: Step, vault: Address)
    ensures var w2 := Advance(w, step).world;
            var opens := step.Call? && OpensIn(step.ix, vault) && Apply(w, step.ix).Ok?;
            && (vault in w.vaults ==>
                  vault in w2.vaults
                  && w2.vaults[vault] == w.vaults[vault].(depositCount := w2.vaults[vault].depositCount)
                  && w2.vaults[vault].depositCount
                     == (if opens && w.vaults[vault].depositCount < U64_MAX then w.vaults[vault].depositCount + 1
                         else w.vaults[vault].depositCount))
            && (vault !in w.vaults ==> !opens)
            && (vault !in w.vaults && vault in w2.vaults ==>
                  && step.Call? && step.ix.InitializeVault? && vault == VaultPda(step.ix.authority)
                  && Apply(w, step.ix).Ok? && !w2.vaults[vault].paused
                  && w2.vaults[vault].authority == step.ix.authority
                  && w2.vaults[vault].oracleSet == step.ix.oracleSet
                  && w2.vaults[vault].minAttestations == step.ix.minAttestations
                  && w2.vaults[vault].depositCount == 0)
  {
    hide Apply;
    if step.Call? && Apply(w, step.ix).Ok? {
      if step.ix.InitializeVault? {
        InitializeAdds(w, step.ix);
      } else if step.ix.MakeDeposit? || step.ix.DepositToken? {
        OpeningCounts(w, step.ix);
      } else {
        OthersKeepVaults(w, step.ix);
      }
    }
  }

  // In every run every vault is the one an initialise instruction of its authority
  // asked for, and its counter is the number of deposits opened in it.
  lemma {:induction false} VaultOrigin(w: World, steps: seq<Step>, vault: Address) returns (i: nat)
    requires Genesis(w)
    ensures vault !in Exec(w, steps).vaults ==> Openings(w, steps, vault) == 0
    ensures vault in Exec(w, steps).vaults ==>
              && InitializedBy(w, steps, i, vault, Exec(w, steps).vaults[vault])
              && Exec(w, steps).vaults[vault].depositCount
                 == (if Openings(w, steps, vault) <= U64_MAX then Openings(w, steps, vault) else U64_MAX)
  {
    hide Advance, Apply;
    i := 0;
    if steps != [] {
      var before, last := steps[..|steps| - 1], steps[|steps| - 1];
      i := VaultOrigin(w, before, vault);
      assert i < |before| ==> steps[..i] == before[..i];
      StepVaults(Exec(w, before), last, vault);
      if vault !in Exec(w, before).vaults {
        i := |before|;
      }
    }
  }
}
