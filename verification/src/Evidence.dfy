// The votes on a deposit: what they must look like in every reachable state,
// how many there can be, and what they prove about a settled deposit.
module Evidence {
  import opened Wrappers
  import opened Keys
  import opened Sums
  import opened Ledger
  import opened Vault
  import opened Lifecycle

  function Count(votes: seq<Attestation>, verdict: Verdict): nat {
    if votes == [] then 0
    else Count(votes[..|votes| - 1], verdict) + (if votes[|votes| - 1].verdict == verdict then 1 else 0)
  }

  function Voters(votes: seq<Attestation>): set<Address> {
    set i | 0 <= i < |votes| :: votes[i].oracle
  }

  function VotersFor(votes: seq<Attestation>, verdict: Verdict): set<Address> {
    set i | 0 <= i < |votes| && votes[i].verdict == verdict :: votes[i].oracle
  }

  function Members(v: Vault): set<Address> {
    set i | 0 <= i < |v.oracleSet| :: v.oracleSet[i]
  }

  ghost predicate DistinctVoters(votes: seq<Attestation>) {
    forall i, j :: 0 <= i < j < |votes| ==> votes[i].oracle != votes[j].oracle
  }

  lemma VotersOfSnoc(votes: seq<Attestation>, last: Attestation, verdict: Verdict)
    ensures Voters(votes + [last]) == Voters(votes) + {last.oracle}
    ensures VotersFor(votes + [last], verdict)
            == VotersFor(votes, verdict) + (if last.verdict == verdict then {last.oracle} else {})
  {
    var all := votes + [last];
    assert all[|votes|] == last;
    forall o | o in Voters(votes) ensures o in Voters(all) {
      var i :| 0 <= i < |votes| && votes[i].oracle == o;
      assert all[i].oracle == o;
    }
    forall o | o in VotersFor(votes, verdict) ensures o in VotersFor(all, verdict) {
      var i :| 0 <= i < |votes| && votes[i].verdict == verdict && votes[i].oracle == o;
      assert all[i] == votes[i];
    }
  }

  // Without repeated voters, counting votes is counting oracles.
  lemma {:induction false} CountIsVoters(votes: seq<Attestation>, verdict: Verdict)
    requires DistinctVoters(votes)
    ensures |VotersFor(votes, verdict)| == Count(votes, verdict)
    ensures |Voters(votes)| == |votes|
  {
    if votes != [] {
      var init, last := votes[..|votes| - 1], votes[|votes| - 1];
      CountIsVoters(init, verdict);
      assert votes == init + [last];
      VotersOfSnoc(init, last, verdict);
      assert last.oracle !in Voters(init);
      assert VotersFor(init, verdict) <= Voters(init);
    }
  }

  lemma {:induction false} CountsAddUp(votes: seq<Attestation>)
    ensures Count(votes, Clean) + Count(votes, Dirty) == |votes|
  {
    if votes != [] {
      CountsAddUp(votes[..|votes| - 1]);
    }
  }

  // -------------------------------------------------------------------------
  // The invariant

  ghost predicate VaultOk(v: Vault) {
    1 <= v.minAttestations <= |v.oracleSet| <= MAX_ORACLES && !v.paused
  }

  ghost predicate VotesOk(v: Vault, d: Deposit) {
    && DistinctVoters(d.attestations)
    && Voters(d.attestations) <= Members(v)
    && (forall i :: 0 <= i < |d.attestations| ==> d.createdAt <= d.attestations[i].timestamp < d.expireAt)
    && d.cleanCount == Count(d.attestations, Clean)
    && d.dirtyCount == Count(d.attestations, Dirty)
  }

  ghost predicate StateOk(v: Vault, d: Deposit, now: I64) {
    var m := v.minAttestations;
    match d.state
    case Pending => d.cleanCount < m && d.dirtyCount < m
    case Approved => d.cleanCount == m && d.dirtyCount < m
    case Released => d.cleanCount == m && d.dirtyCount < m
    case Rejected => d.cleanCount < m && d.dirtyCount == m
    case Refunded => d.cleanCount < m && (d.dirtyCount == m || (d.dirtyCount < m && d.expireAt <= now))
    case Expired => false
  }

  ghost predicate DepositOk(w: World, a: Address) {
    a in w.deposits &&
    var d := w.deposits[a];
    && a == DepositPda(d.vault, d.stealth, d.ephemeral)
    && d.vault in w.vaults
    && d.amount > 0
    && d.createdAt <= w.now
    && VotesOk(w.vaults[d.vault], d)
    && StateOk(w.vaults[d.vault], d, w.now)
  }

  ghost predicate WellFormed(w: World) {
    && (forall v :: v in w.vaults ==> v == VaultPda(w.vaults[v].authority) && VaultOk(w.vaults[v]))
    && (forall a :: a in w.deposits ==> DepositOk(w, a))
  }

  lemma VoteKeepsEvidence(v: Vault, d: Deposit, oracle: Address, verdict: Verdict, evidence: Key32, now: I64)
    requires VaultOk(v) && VotesOk(v, d) && StateOk(v, d, now) && d.createdAt <= now
    requires AttestDeposit(v, d, oracle, verdict, evidence, now).Ok?
    ensures var d2 := AttestDeposit(v, d, oracle, verdict, evidence, now).value;
            VotesOk(v, d2) && StateOk(v, d2, now)
  {
    var d2 := AttestDeposit(v, d, oracle, verdict, evidence, now).value;
    assert d2.attestations[..|d.attestations|] == d.attestations;
    assert forall i :: 0 <= i < |d.attestations| ==> d2.attestations[i] == d.attestations[i];
    assert Voters(d2.attestations) <= Voters(d.attestations) + {oracle};
  }

  lemma DepositStepKeepsOk(w: World, w2: World, a: Address)
    requires DepositOk(w, a) && VaultOk(w.vaults[w.deposits[a].vault])
    requires w.now <= w2.now && a in w2.deposits && w.deposits[a].vault in w2.vaults
    requires SameRules(w.vaults[w.deposits[a].vault], w2.vaults[w.deposits[a].vault])
    requires DepositStep(w, a, w.deposits[a], w2.deposits[a])
    ensures DepositOk(w2, a)
  {
    var d, d2 := w.deposits[a], w2.deposits[a];
    var v, v2 := w.vaults[d.vault], w2.vaults[d.vault];
    assert Members(v2) == Members(v);
    if IsVoted(w, a, d, d2) {
      var oracle, verdict, evidence :|
        AttestDeposit(w.vaults[a.vault], d, oracle, verdict, evidence, w.now) == Ok(d2);
      VoteKeepsEvidence(v, d, oracle, verdict, evidence, w.now);
    }
    assert VotesOk(v, d2) && StateOk(v, d2, w.now);
  }

  lemma ChainStepKeepsWellFormed(w: World, w2: World)
    requires WellFormed(w) && ChainStep(w, w2)
    ensures WellFormed(w2)
  {
    forall a | a in w2.deposits ensures DepositOk(w2, a) {
      if a in w.deposits {
        assert DepositOk(w, a);
        DepositStepKeepsOk(w, w2, a);
      } else {
        assert IsOpened(w, a, w2.deposits[a]);
      }
    }
  }

  lemma {:induction false} ReachableWellFormed(w: World, steps: seq<Step>)
    requires WellFormed(w)
    ensures WellFormed(Exec(w, steps))
  {
    hide Advance;
    if steps != [] {
      var before := steps[..|steps| - 1];
      ReachableWellFormed(w, before);
      AdvanceIsChainStep(Exec(w, before), steps[|steps| - 1]);
      ChainStepKeepsWellFormed(Exec(w, before), Exec(w, steps));
    }
  }

  // -------------------------------------------------------------------------
  // What a reader of the chain may conclude

  // The clean and the dirty voters are two groups of members of the vault.
  ghost predicate VotersAreMembers(v: Vault, votes: seq<Attestation>) {
    VotersFor(votes, Clean) + VotersFor(votes, Dirty) <= Members(v) && VotersFor(votes, Clean) !! VotersFor(votes, Dirty)
  }

  ghost predicate VotedInWindow(d: Deposit) {
    forall i :: 0 <= i < |d.attestations| ==> d.createdAt <= d.attestations[i].timestamp < d.expireAt
  }

  // The number of oracles of either kind behind each state.
  ghost predicate BackedByVoters(v: Vault, d: Deposit, now: I64) {
    var m := v.minAttestations;
    var clean, dirty := |VotersFor(d.attestations, Clean)|, |VotersFor(d.attestations, Dirty)|;
    && (d.state == Approved || d.state == Released ==> clean == m && dirty < m)
    && (d.state == Rejected ==> dirty == m && clean < m)
    && (d.state == Refunded ==> clean < m && (dirty == m || d.expireAt <= now))
    && (d.state == Pending ==> clean < m && dirty < m)
    && d.state != Expired
  }

  lemma VotesOkGroups(v: Vault, d: Deposit)
    requires VotesOk(v, d)
    ensures VotersAreMembers(v, d.attestations) && VotedInWindow(d)
  {
    var votes := d.attestations;
    assert VotersFor(votes, Clean) + VotersFor(votes, Dirty) <= Voters(votes);
  }

  lemma StateOkBacked(v: Vault, d: Deposit, now: I64)
    requires VotesOk(v, d) && StateOk(v, d, now)
    ensures BackedByVoters(v, d, now)
  {
    hide VotersFor;
    CountIsVoters(d.attestations, Clean);
    CountIsVoters(d.attestations, Dirty);
  }

  // In every run, the state of a deposit is backed by votes: exactly the
  // threshold of clean oracles behind a released deposit, all of them distinct
  // members of its own vault who voted in its window; never that many behind a
  // refunded one. Expired is never stored.
  lemma EvidenceInvariant(w: World, steps: seq<Step>, a: Address)
    requires Genesis(w) && a in Exec(w, steps).deposits
    ensures var w2 := Exec(w, steps);
            var d := w2.deposits[a];
            && a == DepositPda(d.vault, d.stealth, d.ephemeral) && d.vault in w2.vaults
            && VotersAreMembers(w2.vaults[d.vault], d.attestations)
            && VotedInWindow(d)
            && BackedByVoters(w2.vaults[d.vault], d, w2.now)
  {
    hide Exec, VotersAreMembers, VotedInWindow, BackedByVoters, VotesOk, StateOk;
    ReachableWellFormed(w, steps);
    var w2 := Exec(w, steps);
    var d := w2.deposits[a];
    assert DepositOk(w2, a);
    VotesOkGroups(w2.vaults[d.vault], d);
    StateOkBacked(w2.vaults[d.vault], d, w2.now);
  }

  // The same vote with the two threshold tests in the other order.
  function AttestCleanFirst(v: Vault, d: Deposit, oracle: Address, verdict: Verdict, evidence: Key32, now: I64)
    : Result<Deposit, VaultError>
  {
    var voted :- AttestDeposit(v, d, oracle, verdict, evidence, now);
    Ok(voted.(state := if voted.cleanCount >= v.minAttestations then Approved
                       else if voted.dirtyCount >= v.minAttestations then Rejected
                       else Pending))
  }

  // On a reachable deposit no vote can complete both thresholds, so the order
  // in which they are tested never decides anything.
  lemma TestOrderNeverDecides(w: World, a: Address, oracle: Address, verdict: Verdict, evidence: Key32)
    requires WellFormed(w) && a in w.deposits
    ensures var d := w.deposits[a];
            var v := w.vaults[d.vault];
            AttestDeposit(v, d, oracle, verdict, evidence, w.now)
            == AttestCleanFirst(v, d, oracle, verdict, evidence, w.now)
  {
    assert DepositOk(w, a);
  }

  // -------------------------------------------------------------------------
  // Bounds

  function Min(a: int, b: int): int {
    if a < b then a else b
  }

  // How many votes a deposit of this vault can ever collect.
  function VoteBound(v: Vault): int {
    Min(|Members(v)|, 2 * v.minAttestations - 1)
  }

  const ATTESTATION_SIZE := 32 + 1 + 8 + 32
  // Serialised size of everything in a deposit except the entries of the vote list.
  const DEPOSIT_BASE_SIZE := 1 + 32 + 32 + 32 + 1 + 32 + 8 + 32 + 32 + 32 + 8 + 8 + 1 + 4 + 1 + 1
  // The space reserved at creation, without the discriminator.
  const DEPOSIT_INIT_SPACE := DEPOSIT_BASE_SIZE + MAX_ATTESTATIONS * ATTESTATION_SIZE

  function SerialisedSize(d: Deposit): nat {
    DEPOSIT_BASE_SIZE + |d.attestations| * ATTESTATION_SIZE
  }

  lemma VotesBounded(w: World, a: Address)
    requires WellFormed(w) && a in w.deposits
    ensures var d := w.deposits[a];
            && |d.attestations| <= VoteBound(w.vaults[d.vault]) <= MAX_ATTESTATIONS
            && (d.state == Pending ==> |d.attestations| <= 2 * w.vaults[d.vault].minAttestations - 2)
            && d.cleanCount == Count(d.attestations, Clean) && d.dirtyCount == Count(d.attestations, Dirty)
            && d.cleanCount + d.dirtyCount == |d.attestations|
            && SerialisedSize(d) <= DEPOSIT_INIT_SPACE
  {
    assert DepositOk(w, a);
    var d := w.deposits[a];
    var v := w.vaults[d.vault];
    CountsAddUp(d.attestations);
    CountIsVoters(d.attestations, Clean);
    SubsetSize(Voters(d.attestations), Members(v));
    SeqSetSize(v.oracleSet);
  }

  // Instructions still possible on a deposit: its remaining votes and the exit.
  function Remaining(v: Vault, d: Deposit): int {
    match d.state
    case Pending => VoteBound(v) - |d.attestations| + 1
    case Approved => 1
    case Rejected => 1
    case Expired => 1
    case Released => 0
    case Refunded => 0
  }

  predicate Touches(step: Step, a: Address) {
    step.Call? && !step.ix.InitializeVault? && !step.ix.MakeDeposit? && !step.ix.DepositToken?
    && !step.ix.SystemTransfer? && !step.ix.TokenTransfer? && step.ix.deposit == a
  }

  // Successful attest, release and refund instructions on one deposit.
  function Successes(w: World, steps: seq<Step>, a: Address): nat {
    if steps == [] then 0
    else
      var before, step := steps[..|steps| - 1], steps[|steps| - 1];
      Successes(w, before, a)
      + (if Touches(step, a) && Apply(Exec(w, before), step.ix).Ok? then 1 else 0)
  }

  // A successful vote adds to the list of an undecided deposit.
  lemma AttestChanges(w: World, ix: Instruction)
    requires ix.Attest? && Apply(w, ix).Ok?
    ensures var w2 := Apply(w, ix).value.world;
            && ix.deposit in w.deposits && ix.deposit in w2.deposits && w.deposits[ix.deposit].state == Pending
            && |w2.deposits[ix.deposit].attestations| == |w.deposits[ix.deposit].attestations| + 1
  {
  }

  // A successful instruction on a deposit is a vote or an exit.
  lemma SuccessChanges(w: World, step: Step, a: Address)
    requires a in w.deposits && Touches(step, a) && Apply(w, step.ix).Ok?
    ensures var w2 := Advance(w, step).world;
            a in w2.deposits && w2.deposits[a] != w.deposits[a]
            && DepositStep(w, a, w.deposits[a], w2.deposits[a])
    ensures w.deposits[a].state != Released && w.deposits[a].state != Refunded
  {
    hide Apply, ChainStep, DepositStep;
    AdvanceIsChainStep(w, step);
    DepositOfChainStep(w, Advance(w, step).world, a);
    if step.ix.Attest? {
      AttestChanges(w, step.ix);
    } else if step.ix.Release? || step.ix.ReleaseToken? {
      ReleaseIsChainStep(w, step.ix);
    } else {
      RefundIsChainStep(w, step.ix);
    }
  }

  lemma ChangeConsumes(w: World, a: Address, v: Vault, d: Deposit, d2: Deposit)
    requires DepositStep(w, a, d, d2) && d2 != d
    requires d.state == Pending ==> |d.attestations| <= VoteBound(v)
    requires d2.state == Pending ==> |d2.attestations| <= VoteBound(v)
    requires IsVoted(w, a, d, d2) ==> |d2.attestations| <= VoteBound(v)
    ensures 0 <= Remaining(v, d2) < Remaining(v, d)
  {
    if IsVoted(w, a, d, d2) {
      assert |d2.attestations| == |d.attestations| + 1;
    }
  }

  lemma SuccessConsumes(w: World, step: Step, a: Address)
    requires WellFormed(w) && a in w.deposits
    ensures var w2 := Advance(w, step).world;
            var v := w.vaults[w.deposits[a].vault];
            && a in w2.deposits && w2.deposits[a].vault == w.deposits[a].vault
            && w.deposits[a].vault in w2.vaults
            && VoteBound(w2.vaults[w.deposits[a].vault]) == VoteBound(v)
            && 0 <= Remaining(v, w2.deposits[a])
            && Remaining(v, w2.deposits[a])
               <= Remaining(v, w.deposits[a]) - (if Touches(step, a) && Apply(w, step.ix).Ok? then 1 else 0)
  {
    hide Apply;
    var w2 := Advance(w, step).world;
    AdvanceIsChainStep(w, step);
    ChainStepKeepsWellFormed(w, w2);
    ChainStepContinues(w, w2);
    VotesBounded(w, a);
    VotesBounded(w2, a);
    assert DepositOk(w, a) && DepositOk(w2, a);
    var d, d2 := w.deposits[a], w2.deposits[a];
    assert SameRules(w.vaults[d.vault], w2.vaults[d.vault]) && DepositStep(w, a, d, d2);
    assert Members(w2.vaults[d.vault]) == Members(w.vaults[d.vault]);
    if Touches(step, a) && Apply(w, step.ix).Ok? {
      SuccessChanges(w, step, a);
    }
    if d2 != d {
      ChangeConsumes(w, a, w.vaults[d.vault], d, d2);
    }
  }

  lemma SameRemaining(v: Vault, v2: Vault, d: Deposit)
    requires VoteBound(v2) == VoteBound(v)
    ensures Remaining(v2, d) == Remaining(v, d)
  {
    hide VoteBound;
  }

  lemma RemainingBounds(w: World, a: Address)
    requires WellFormed(w) && a in w.deposits
    ensures w.deposits[a].vault in w.vaults
    ensures var v := w.vaults[w.deposits[a].vault];
            0 <= Remaining(v, w.deposits[a]) <= 2 * v.minAttestations
  {
    assert DepositOk(w, a);
    VotesBounded(w, a);
  }

  // In any continuation, at most the remaining votes and one exit succeed on a
  // deposit; a new deposit sees at most 2 * threshold instructions succeed.
  lemma {:induction false} SuccessesBounded(w: World, steps: seq<Step>, a: Address)
    requires WellFormed(w) && a in w.deposits
    ensures var w2 := Exec(w, steps);
            var v := w.vaults[w.deposits[a].vault];
            && WellFormed(w2) && a in w2.deposits && w2.deposits[a].vault == w.deposits[a].vault
            && VoteBound(w2.vaults[w.deposits[a].vault]) == VoteBound(v)
            && 0 <= Remaining(v, w2.deposits[a])
            && Successes(w, steps, a) + Remaining(v, w2.deposits[a]) <= Remaining(v, w.deposits[a])
            && Remaining(v, w.deposits[a]) <= 2 * v.minAttestations
  {
    hide Advance, Apply, Remaining, VoteBound;
    RemainingBounds(w, a);
    if steps != [] {
      var before := steps[..|steps| - 1];
      SuccessesBounded(w, before, a);
      ReachableWellFormed(w, steps);
      SuccessConsumes(Exec(w, before), steps[|steps| - 1], a);
      var v, mid := w.vaults[w.deposits[a].vault], Exec(w, before);
      SameRemaining(v, mid.vaults[w.deposits[a].vault], mid.deposits[a]);
      SameRemaining(v, mid.vaults[w.deposits[a].vault], Exec(w, steps).deposits[a]);
    }
  }

  // -------------------------------------------------------------------------
  // Expiry

  lemma OverdueStep(w: World, a: Address, d: Deposit, d2: Deposit)
    requires DepositStep(w, a, d, d2) && (d.state == Refunded || (d.state == Pending && d.expireAt <= w.now))
    ensures d2 == d || d2 == d.(state := Refunded)
  {
  }

  // Once a deposit is overdue without a decision, a refund is all that can
  // still happen to it, in any continuation.
  lemma {:induction false} ExpiryIsFinal(w: World, steps: seq<Step>, a: Address)
    requires a in w.deposits && w.deposits[a].state == Pending && w.deposits[a].expireAt <= w.now
    ensures var w2 := Exec(w, steps);
            && a in w2.deposits
            && (w2.deposits[a] == w.deposits[a] || w2.deposits[a] == w.deposits[a].(state := Refunded))
  {
    hide Advance, ChainStep, DepositStep;
    if steps != [] {
      var before := steps[..|steps| - 1];
      ExpiryIsFinal(w, before, a);
      RunContinues(w, before);
      var u := Exec(w, before);
      AdvanceIsChainStep(u, steps[|steps| - 1]);
      DepositOfChainStep(u, Exec(w, steps), a);
      OverdueStep(u, a, u.deposits[a], Exec(w, steps).deposits[a]);
    }
  }
}
