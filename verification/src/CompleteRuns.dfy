// The outcome of a deposit in a run of the chain in which every oracle of its
// vault attests in time, amid anything else.
module CompleteRuns {
  import opened Wrappers
  import opened Keys
  import opened Sums
  import opened Ledger
  import opened Vault
  import opened Lifecycle
  import opened Evidence
  import opened Confluence

  // Step i has the oracle attest the deposit while its window is open; whether
  // the instruction succeeds is left open.
  ghost predicate AttestsInTime(w: World, steps: seq<Step>, a: Address, oracle: Address, i: nat)
    requires a in w.deposits
  {
    && i < |steps| && steps[i].Call? && steps[i].ix.Attest?
    && steps[i].ix.oracle == oracle && steps[i].ix.deposit == a && steps[i].ix.vault == w.deposits[a].vault
    && Exec(w, steps[..i]).now < w.deposits[a].expireAt
  }

  ghost predicate EveryoneAttests(w: World, steps: seq<Step>, a: Address)
    requires a in w.deposits && w.deposits[a].vault in w.vaults
  {
    forall o :: o in Members(w.vaults[w.deposits[a].vault]) ==> exists i :: AttestsInTime(w, steps, a, o, i)
  }

  ghost predicate Undecided(w: World, a: Address) {
    && a in w.deposits && w.deposits[a].vault in w.vaults
    && w.deposits[a].cleanCount < w.vaults[w.deposits[a].vault].minAttestations
    && w.deposits[a].dirtyCount < w.vaults[w.deposits[a].vault].minAttestations
  }

  lemma VotesGrow(w: World, a: Address, d: Deposit, d2: Deposit)
    requires DepositStep(w, a, d, d2)
    ensures d.attestations <= d2.attestations && Voters(d.attestations) <= Voters(d2.attestations)
    ensures d.cleanCount <= d2.cleanCount && d.dirtyCount <= d2.dirtyCount
  {
    assert d.attestations <= d2.attestations;
    forall o | o in Voters(d.attestations) ensures o in Voters(d2.attestations) {
      var i :| 0 <= i < |d.attestations| && d.attestations[i].oracle == o;
      assert d2.attestations[i] == d.attestations[i];
    }
  }

  // An attestation in an open window finds the oracle among the voters, whether
  // it succeeded or was a duplicate.
  lemma AttestVotes(w: World, ix: Instruction)
    requires WellFormed(w) && ix.Attest? && ix.deposit in w.deposits && ix.vault == w.deposits[ix.deposit].vault
    requires w.deposits[ix.deposit].state == Pending && w.now < w.deposits[ix.deposit].expireAt
    requires ix.oracle in Members(w.vaults[ix.vault])
    ensures var w2 := Advance(w, Call(ix)).world;
            ix.deposit in w2.deposits && ix.oracle in Voters(w2.deposits[ix.deposit].attestations)
  {
    hide ApplyRelease, ApplyRefund;
    var a := ix.deposit;
    assert DepositOk(w, a);
    var d := w.deposits[a];
    if HasAttested(d, ix.oracle) {
      var i :| 0 <= i < |d.attestations| && d.attestations[i].oracle == ix.oracle;
    } else {
      var d2 := Advance(w, Call(ix)).world.deposits[a];
      assert d2.attestations[|d.attestations|].oracle == ix.oracle;
    }
  }

  lemma StepKeepsDeposit(w: World, step: Step, a: Address)
    requires WellFormed(w) && a in w.deposits
    ensures var w2 := Advance(w, step).world;
            && WellFormed(w2) && a in w2.deposits && SameTerms(w.deposits[a], w2.deposits[a])
            && Voters(w.deposits[a].attestations) <= Voters(w2.deposits[a].attestations)
            && w.deposits[a].vault in w.vaults && w.deposits[a].vault in w2.vaults
            && SameRules(w.vaults[w.deposits[a].vault], w2.vaults[w.deposits[a].vault])
            && (Undecided(w2, a) ==> Undecided(w, a))
  {
    var w2 := Advance(w, step).world;
    AdvanceIsChainStep(w, step);
    ChainStepKeepsWellFormed(w, w2);
    assert DepositOk(w, a);
    DepositStepContinues(w, a, w.deposits[a], w2.deposits[a]);
    VotesGrow(w, a, w.deposits[a], w2.deposits[a]);
  }

  // An undecided deposit in an open window is pending.
  lemma UndecidedIsPending(w: World, a: Address)
    requires WellFormed(w) && Undecided(w, a) && w.now < w.deposits[a].expireAt
    ensures w.deposits[a].state == Pending
  {
    assert DepositOk(w, a);
  }

  lemma SameMembers(v: Vault, v2: Vault)
    requires SameRules(v, v2)
    ensures Members(v2) == Members(v)
  {
  }

  lemma AttestInTimeVotes(w: World, ix: Instruction)
    requires WellFormed(w) && ix.Attest? && Undecided(w, ix.deposit) && ix.vault == w.deposits[ix.deposit].vault
    requires w.now < w.deposits[ix.deposit].expireAt && ix.oracle in Members(w.vaults[ix.vault])
    ensures var w2 := Advance(w, Call(ix)).world;
            ix.deposit in w2.deposits && ix.oracle in Voters(w2.deposits[ix.deposit].attestations)
  {
    hide Advance, WellFormed;
    UndecidedIsPending(w, ix.deposit);
    AttestVotes(w, ix);
  }

  // While no decision is reached, whoever attested in time has voted.
  lemma {:induction false} UndecidedKeepsVoters(w: World, steps: seq<Step>, a: Address, oracle: Address, i: nat)
    requires WellFormed(w) && a in w.deposits && AttestsInTime(w, steps, a, oracle, i)
    requires w.deposits[a].vault in w.vaults && oracle in Members(w.vaults[w.deposits[a].vault])
    requires Undecided(Exec(w, steps), a)
    ensures a in Exec(w, steps).deposits && oracle in Voters(Exec(w, steps).deposits[a].attestations)
  {
    hide Advance, WellFormed, Voters, Members, Undecided;
    var before, last := steps[..|steps| - 1], steps[|steps| - 1];
    var mid := Exec(w, before);
    assert Exec(w, steps) == Advance(mid, last).world;
    ReachableWellFormed(w, before);
    RunContinues(w, before);
    StepKeepsDeposit(mid, last, a);
    if i < |before| {
      assert before[..i] == steps[..i];
      UndecidedKeepsVoters(w, before, a, oracle, i);
    } else {
      RunKeepsRules(w, before, w.deposits[a].vault);
      SameMembers(w.vaults[w.deposits[a].vault], mid.vaults[w.deposits[a].vault]);
      AttestInTimeVotes(mid, last.ix);
    }
  }

  lemma UndecidedHasEveryone(w: World, steps: seq<Step>, a: Address)
    requires WellFormed(w) && a in w.deposits && w.deposits[a].vault in w.vaults && EveryoneAttests(w, steps, a)
    requires Undecided(Exec(w, steps), a)
    ensures Members(w.vaults[w.deposits[a].vault]) <= Voters(Exec(w, steps).deposits[a].attestations)
  {
    hide Exec, Advance;
    forall o | o in Members(w.vaults[w.deposits[a].vault])
      ensures o in Voters(Exec(w, steps).deposits[a].attestations)
    {
      var i :| AttestsInTime(w, steps, a, o, i);
      UndecidedKeepsVoters(w, steps, a, o, i);
    }
  }

  lemma UndecidedCountsEveryone(w: World, steps: seq<Step>, a: Address, judge: Judgement)
    requires WellFormed(w) && a in w.deposits && w.deposits[a].vault in w.vaults
    requires Follows(w.deposits[a], judge) && JudgedBy(steps, a, judge) && EveryoneAttests(w, steps, a)
    requires Undecided(Exec(w, steps), a)
    ensures var v, d2 := w.vaults[w.deposits[a].vault], Exec(w, steps).deposits[a];
            && d2.cleanCount == |Inclined(v, judge, Clean)| && d2.dirtyCount == |Inclined(v, judge, Dirty)|
  {
    hide Exec, Advance;
    var v, w2 := w.vaults[w.deposits[a].vault], Exec(w, steps);
    UndecidedHasEveryone(w, steps, a);
    RunFollows(w, steps, a, judge);
    RunVotesAreInclined(w, a, judge, steps);
    RunKeepsRules(w, steps, w.deposits[a].vault);
    assert Members(w2.vaults[w.deposits[a].vault]) == Members(v);
    EveryVoteCounts(v, w2.deposits[a].attestations, judge, Clean);
    EveryVoteCounts(v, w2.deposits[a].attestations, judge, Dirty);
  }

  // Under a majority threshold, in any run in which every oracle of the vault
  // attests by its verdict while the window is open, interleaved with anything,
  // the deposit ends approved or released iff the clean oracles reach the
  // threshold, and condemned iff the dirty ones do.
  lemma CompleteRunDecides(w: World, steps: seq<Step>, a: Address, judge: Judgement)
    requires WellFormed(w) && a in w.deposits && w.deposits[a].vault in w.vaults
    requires Majority(w.vaults[w.deposits[a].vault])
    requires Follows(w.deposits[a], judge) && JudgedBy(steps, a, judge) && EveryoneAttests(w, steps, a)
    ensures var v := w.vaults[w.deposits[a].vault];
            && (CleanWon(Exec(w, steps), a) <==> |Inclined(v, judge, Clean)| >= v.minAttestations)
            && (DirtyWon(Exec(w, steps), a) <==> |Inclined(v, judge, Dirty)| >= v.minAttestations)
  {
    hide Exec, Advance;
    var v := w.vaults[w.deposits[a].vault];
    RunVotesAreInclined(w, a, judge, steps);
    InclinedPartition(v, judge);
    if Undecided(Exec(w, steps), a) {
      UndecidedCountsEveryone(w, steps, a, judge);
    }
  }
}
