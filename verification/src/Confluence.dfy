// Whether the order in which oracles vote can change the outcome.
module Confluence {
  import opened Wrappers
  import opened Keys
  import opened Sums
  import opened Ledger
  import opened Vault
  import opened Lifecycle
  import opened Evidence

  // An oracle's try to vote. Its verdict is fixed by the judgement; a try that
  // is refused leaves the deposit as it was.
  datatype Attempt = Attempt(oracle: Address, evidence: Key32, at: I64)

  type Judgement = Address -> Verdict

  function Vote(v: Vault, d: Deposit, judge: Judgement, t: Attempt): Deposit {
    match AttestDeposit(v, d, t.oracle, judge(t.oracle), t.evidence, t.at)
    case Ok(d2) => d2
    case Err(_) => d
  }

  function VoteAll(v: Vault, d: Deposit, judge: Judgement, tries: seq<Attempt>): Deposit {
    if tries == [] then d
    else Vote(v, VoteAll(v, d, judge, tries[..|tries| - 1]), judge, tries[|tries| - 1])
  }

  ghost predicate Fresh(d: Deposit) {
    d.state == Pending && d.attestations == [] && d.cleanCount == 0 && d.dirtyCount == 0
  }

  // Members of the vault whose verdict is `verdict`.
  function Inclined(v: Vault, judge: Judgement, verdict: Verdict): set<Address> {
    set o | o in Members(v) && judge(o) == verdict
  }

  ghost predicate Majority(v: Vault) {
    2 * v.minAttestations > |Members(v)|
  }

  // -------------------------------------------------------------------------
  // What every order of votes keeps

  ghost predicate Tallied(v: Vault, d: Deposit, judge: Judgement) {
    && DistinctVoters(d.attestations)
    && Voters(d.attestations) <= Members(v)
    && (forall i :: 0 <= i < |d.attestations| ==> d.attestations[i].verdict == judge(d.attestations[i].oracle))
    && d.cleanCount == Count(d.attestations, Clean)
    && d.dirtyCount == Count(d.attestations, Dirty)
    && d.state == Decide(d.cleanCount, d.dirtyCount, v.minAttestations)
    && d.cleanCount <= v.minAttestations && d.dirtyCount <= v.minAttestations
  }

  lemma OneVoteMore(v: Vault, votes: seq<Attestation>, last: Attestation, judge: Judgement)
    requires DistinctVoters(votes) && Voters(votes) <= Members(v)
    requires forall i :: 0 <= i < |votes| ==> votes[i].verdict == judge(votes[i].oracle)
    requires last.oracle in v.oracleSet && last.verdict == judge(last.oracle)
    requires forall i :: 0 <= i < |votes| ==> votes[i].oracle != last.oracle
    ensures var all := votes + [last];
            && DistinctVoters(all) && Voters(all) <= Members(v)
            && (forall i :: 0 <= i < |all| ==> all[i].verdict == judge(all[i].oracle))
            && (forall x :: Count(all, x) == Count(votes, x) + (if last.verdict == x then 1 else 0))
  {
    assert (votes + [last])[..|votes|] == votes;
    VotersOfSnoc(votes, last, Clean);
  }

  lemma VoteKeepsTally(v: Vault, d: Deposit, judge: Judgement, t: Attempt)
    requires VaultOk(v) && Tallied(v, d, judge)
    ensures Tallied(v, Vote(v, d, judge, t), judge)
  {
    hide DistinctVoters, Voters, Members, Count;
    if Vote(v, d, judge, t) != d {
      var last := Attestation(t.oracle, judge(t.oracle), t.at, t.evidence);
      OneVoteMore(v, d.attestations, last, judge);
    }
  }

  lemma {:induction false} VoteAllTallied(v: Vault, d: Deposit, judge: Judgement, tries: seq<Attempt>)
    requires VaultOk(v) && Fresh(d)
    ensures Tallied(v, VoteAll(v, d, judge, tries), judge)
  {
    if tries != [] {
      VoteAllTallied(v, d, judge, tries[..|tries| - 1]);
      VoteKeepsTally(v, VoteAll(v, d, judge, tries[..|tries| - 1]), judge, tries[|tries| - 1]);
    }
  }

  // A decision needs a threshold of oracles inclined that way.
  lemma DecisionNeedsInclined(v: Vault, d: Deposit, judge: Judgement)
    requires VaultOk(v) && Tallied(v, d, judge)
    ensures d.cleanCount <= |Inclined(v, judge, Clean)| && d.dirtyCount <= |Inclined(v, judge, Dirty)|
  {
    CountIsVoters(d.attestations, Clean);
    CountIsVoters(d.attestations, Dirty);
    SubsetSize(VotersFor(d.attestations, Clean), Inclined(v, judge, Clean));
    SubsetSize(VotersFor(d.attestations, Dirty), Inclined(v, judge, Dirty));
  }

  lemma InclinedPartition(v: Vault, judge: Judgement)
    ensures |Inclined(v, judge, Clean)| + |Inclined(v, judge, Dirty)| == |Members(v)|
  {
    var clean, dirty := Inclined(v, judge, Clean), Inclined(v, judge, Dirty);
    assert Members(v) == clean + dirty && clean !! dirty;
  }

  // No two orders of tries reach opposite decisions under a majority threshold.
  lemma NoOppositeDecisions(v: Vault, d: Deposit, judge: Judgement, a: seq<Attempt>, b: seq<Attempt>)
    requires VaultOk(v) && Fresh(d) && Majority(v)
    ensures !(VoteAll(v, d, judge, a).state == Approved && VoteAll(v, d, judge, b).state == Rejected)
  {
    VoteAllTallied(v, d, judge, a);
    VoteAllTallied(v, d, judge, b);
    DecisionNeedsInclined(v, VoteAll(v, d, judge, a), judge);
    DecisionNeedsInclined(v, VoteAll(v, d, judge, b), judge);
    InclinedPartition(v, judge);
  }

  // -------------------------------------------------------------------------
  // What a complete order decides

  ghost predicate EveryoneTries(v: Vault, d: Deposit, tries: seq<Attempt>) {
    forall o :: o in Members(v) ==> exists i :: 0 <= i < |tries| && tries[i].oracle == o && tries[i].at < d.expireAt
  }

  // While no decision is reached, whoever tried in time has voted.
  lemma {:induction false} PendingKeepsTries(v: Vault, d: Deposit, judge: Judgement, tries: seq<Attempt>, i: nat)
    requires Fresh(d) && i < |tries|
    requires tries[i].oracle in Members(v) && tries[i].at < d.expireAt
    requires VoteAll(v, d, judge, tries).state == Pending
    ensures tries[i].oracle in Voters(VoteAll(v, d, judge, tries).attestations)
  {
    var init, last := tries[..|tries| - 1], tries[|tries| - 1];
    var before := VoteAll(v, d, judge, init);
    var after := VoteAll(v, d, judge, tries);
    VoteAllTerms(v, d, judge, init);
    assert before.state == Pending;
    assert forall j :: 0 <= j < |before.attestations| ==> after.attestations[j] == before.attestations[j];
    if i < |init| {
      PendingKeepsTries(v, d, judge, init, i);
      var j :| 0 <= j < |before.attestations| && before.attestations[j].oracle == tries[i].oracle;
      assert after.attestations[j].oracle == tries[i].oracle;
    } else if HasAttested(before, last.oracle) {
      assert after == before;
    } else {
      assert after.attestations[|before.attestations|].oracle == last.oracle;
    }
  }

  lemma {:induction false} VoteAllTerms(v: Vault, d: Deposit, judge: Judgement, tries: seq<Attempt>)
    ensures SameTerms(d, VoteAll(v, d, judge, tries))
  {
    if tries != [] {
      VoteAllTerms(v, d, judge, tries[..|tries| - 1]);
    }
  }

  // Under a majority threshold, any order in which every oracle tries in time
  // ends approved iff the clean oracles reach the threshold, and rejected iff
  // the dirty ones do.
  lemma CompleteOrderDecides(v: Vault, d: Deposit, judge: Judgement, tries: seq<Attempt>)
    requires VaultOk(v) && Fresh(d) && Majority(v) && EveryoneTries(v, d, tries)
    ensures var outcome := VoteAll(v, d, judge, tries).state;
            && (outcome == Approved <==> |Inclined(v, judge, Clean)| >= v.minAttestations)
            && (outcome == Rejected <==> |Inclined(v, judge, Dirty)| >= v.minAttestations)
  {
    var final := VoteAll(v, d, judge, tries);
    VoteAllTallied(v, d, judge, tries);
    DecisionNeedsInclined(v, final, judge);
    InclinedPartition(v, judge);
    if final.state == Pending {
      forall o | o in Members(v) ensures o in Voters(final.attestations) {
        var i :| 0 <= i < |tries| && tries[i].oracle == o && tries[i].at < d.expireAt;
        PendingKeepsTries(v, d, judge, tries, i);
      }
      EveryVoteCounts(v, final.attestations, judge, Clean);
      EveryVoteCounts(v, final.attestations, judge, Dirty);
    }
  }

  lemma EveryVoteCounts(v: Vault, votes: seq<Attestation>, judge: Judgement, verdict: Verdict)
    requires DistinctVoters(votes) && Voters(votes) == Members(v)
    requires forall i :: 0 <= i < |votes| ==> votes[i].verdict == judge(votes[i].oracle)
    ensures Count(votes, verdict) == |Inclined(v, judge, verdict)|
  {
    CountIsVoters(votes, verdict);
    assert VotersFor(votes, verdict) == Inclined(v, judge, verdict);
  }

  // -------------------------------------------------------------------------
  // Without a majority the order does decide

  lemma {:induction false} Enumerate(s: set<Address>) returns (order: seq<Address>)
    ensures |order| == |s|
    ensures forall i :: 0 <= i < |order| ==> order[i] in s
    ensures forall i, j :: 0 <= i < j < |order| ==> order[i] != order[j]
    decreases s
  {
    if s == {} {
      order := [];
    } else {
      var o :| o in s;
      var rest := Enumerate(s - {o});
      order := rest + [o];
    }
  }

  function Tries(order: seq<Address>, at: I64): seq<Attempt> {
    seq(|order|, i requires 0 <= i < |order| => Attempt(order[i], ZERO_KEY, at))
  }

  // The deposit after these oracles, all of one verdict, have voted on it.
  ghost predicate VotedAs(v: Vault, d: Deposit, order: seq<Address>, verdict: Verdict) {
    && |d.attestations| == |order|
    && (forall i :: 0 <= i < |order| ==> d.attestations[i].oracle == order[i])
    && d.cleanCount == (if verdict == Clean then |order| else 0)
    && d.dirtyCount == (if verdict == Dirty then |order| else 0)
    && d.state == Decide(d.cleanCount, d.dirtyCount, v.minAttestations)
  }

  lemma NoVotes(v: Vault, d: Deposit, verdict: Verdict)
    requires VaultOk(v) && Fresh(d)
    ensures VotedAs(v, d, [], verdict)
  {
  }

  lemma OneMoreVote(v: Vault, d: Deposit, judge: Judgement, order: seq<Address>, t: Attempt)
    requires VaultOk(v) && VotedAs(v, d, order, judge(t.oracle)) && |order| < v.minAttestations
    requires t.oracle in Members(v) && t.oracle !in order && t.at < d.expireAt
    ensures VotedAs(v, Vote(v, d, judge, t), order + [t.oracle], judge(t.oracle))
  {
    forall i | 0 <= i < |d.attestations| ensures d.attestations[i].oracle != t.oracle {
      assert d.attestations[i].oracle == order[i];
    }
    assert !HasAttested(d, t.oracle);
  }

  // Distinct members of one mind, voting in time one after the other, decide
  // the deposit at the threshold.
  lemma {:induction false} UnanimousPrefix(v: Vault, d: Deposit, judge: Judgement, order: seq<Address>, at: I64,
                                           verdict: Verdict)
    requires VaultOk(v) && Fresh(d) && at < d.expireAt
    requires |order| <= v.minAttestations
    requires forall i :: 0 <= i < |order| ==> order[i] in Members(v) && judge(order[i]) == verdict
    requires forall i, j :: 0 <= i < j < |order| ==> order[i] != order[j]
    ensures VotedAs(v, VoteAll(v, d, judge, Tries(order, at)), order, verdict)
  {
    hide Vote, Members, VotedAs, Fresh, VaultOk;
    if order == [] {
      NoVotes(v, d, verdict);
    } else {
      var init := order[..|order| - 1];
      UnanimousPrefix(v, d, judge, init, at, verdict);
      assert Tries(order, at)[..|order| - 1] == Tries(init, at);
      VoteAllTerms(v, d, judge, Tries(init, at));
      OneMoreVote(v, VoteAll(v, d, judge, Tries(init, at)), judge, init, Tries(order, at)[|order| - 1]);
      assert order == init + [order[|order| - 1]];
    }
  }

  ghost predicate OrdersConflict(v: Vault, d: Deposit, judge: Judgement, a: seq<Attempt>, b: seq<Attempt>) {
    VoteAll(v, d, judge, a).state == Approved && VoteAll(v, d, judge, b).state == Rejected
  }

  // Two disjoint thresholds of oracles with opposite verdicts.
  lemma MinorityConflicts(v: Vault, d: Deposit, at: I64) returns (judge: Judgement, a: seq<Attempt>, b: seq<Attempt>)
    requires VaultOk(v) && Fresh(d) && at < d.expireAt && !Majority(v)
    ensures OrdersConflict(v, d, judge, a, b)
  {
    hide VoteAll, Members, Fresh;
    var order := Enumerate(Members(v));
    var m := v.minAttestations;
    var clean, dirty := order[..m], order[m..2 * m];
    judge := o => if o in clean then Clean else Dirty;
    forall i | 0 <= i < m ensures judge(dirty[i]) == Dirty && judge(clean[i]) == Clean {
      assert dirty[i] == order[m + i];
    }
    a, b := Tries(clean, at), Tries(dirty, at);
    UnanimousPrefix(v, d, judge, clean, at, Clean);
    UnanimousPrefix(v, d, judge, dirty, at, Dirty);
  }

  // The outcome is independent of the order for all verdicts exactly when the
  // threshold is a majority of the distinct oracles.
  lemma MajorityIsExact(v: Vault, d: Deposit, at: I64)
    requires VaultOk(v) && Fresh(d) && at < d.expireAt
    ensures Majority(v) <==> forall judge, a, b :: !OrdersConflict(v, d, judge, a, b)
  {
    hide VoteAll, Members;
    if Majority(v) {
      forall judge, a, b ensures !OrdersConflict(v, d, judge, a, b) {
        NoOppositeDecisions(v, d, judge, a, b);
      }
    } else {
      var judge, a, b := MinorityConflicts(v, d, at);
    }
  }

  // -------------------------------------------------------------------------
  // The same for whole runs of the chain

  ghost predicate JudgedBy(steps: seq<Step>, a: Address, judge: Judgement) {
    forall i :: 0 <= i < |steps| && steps[i].Call? && steps[i].ix.Attest? && steps[i].ix.deposit == a ==>
                  steps[i].ix.verdict == judge(steps[i].ix.oracle)
  }

  ghost predicate Follows(d: Deposit, judge: Judgement) {
    forall i :: 0 <= i < |d.attestations| ==> d.attestations[i].verdict == judge(d.attestations[i].oracle)
  }

  lemma AttestFollows(w: World, ix: Instruction, judge: Judgement)
    requires ix.Attest? && Apply(w, ix).Ok? && ix.deposit in w.deposits
    requires Follows(w.deposits[ix.deposit], judge) && ix.verdict == judge(ix.oracle)
    ensures Follows(Apply(w, ix).value.world.deposits[ix.deposit], judge)
  {
  }

  lemma OpeningIsFresh(w: World, ix: Instruction)
    requires (ix.MakeDeposit? || ix.DepositToken?) && Apply(w, ix).Ok?
    ensures Subject(ix).Some? && Subject(ix).value !in w.deposits
  {
  }

  lemma StepFollows(w: World, step: Step, a: Address, judge: Judgement)
    requires a in w.deposits && Follows(w.deposits[a], judge)
    requires step.Call? && step.ix.Attest? && step.ix.deposit == a ==> step.ix.verdict == judge(step.ix.oracle)
    ensures a in Advance(w, step).world.deposits && Follows(Advance(w, step).world.deposits[a], judge)
  {
    if step.Call? && Apply(w, step.ix).Ok? {
      OneDepositChanges(w, step.ix);
      if Subject(step.ix) == Some(a) {
        if step.ix.Attest? {
          AttestFollows(w, step.ix, judge);
        } else if step.ix.Release? || step.ix.ReleaseToken? {
          ReleaseIsChainStep(w, step.ix);
        } else if step.ix.Refund? || step.ix.RefundToken? {
          RefundIsChainStep(w, step.ix);
        } else {
          OpeningIsFresh(w, step.ix);
        }
      }
    }
  }

  lemma {:induction false} RunFollows(w: World, steps: seq<Step>, a: Address, judge: Judgement)
    requires a in w.deposits && Follows(w.deposits[a], judge) && JudgedBy(steps, a, judge)
    ensures a in Exec(w, steps).deposits && Follows(Exec(w, steps).deposits[a], judge)
  {
    if steps != [] {
      var before := steps[..|steps| - 1];
      RunFollows(w, before, a, judge);
      StepFollows(Exec(w, before), steps[|steps| - 1], a, judge);
    }
  }

  ghost predicate CleanWon(w: World, a: Address) {
    a in w.deposits && (w.deposits[a].state == Approved || w.deposits[a].state == Released)
  }

  ghost predicate DirtyWon(w: World, a: Address) {
    && a in w.deposits && w.deposits[a].vault in w.vaults
    && w.deposits[a].dirtyCount >= w.vaults[w.deposits[a].vault].minAttestations
  }

  // From one state of the chain, no two continuations in which the oracles keep
  // to their verdicts end with the deposit cleared in one and condemned in the
  // other, if the threshold of its vault is a majority.
  lemma RunsAgree(w: World, a: Address, judge: Judgement, s: seq<Step>, t: seq<Step>)
    requires WellFormed(w) && a in w.deposits && Majority(w.vaults[w.deposits[a].vault])
    requires Follows(w.deposits[a], judge) && JudgedBy(s, a, judge) && JudgedBy(t, a, judge)
    ensures !(CleanWon(Exec(w, s), a) && DirtyWon(Exec(w, t), a))
  {
    var v := w.vaults[w.deposits[a].vault];
    assert DepositOk(w, a);
    RunVotesAreInclined(w, a, judge, s);
    RunVotesAreInclined(w, a, judge, t);
    InclinedPartition(v, judge);
  }

  lemma RunVotesAreInclined(w: World, a: Address, judge: Judgement, s: seq<Step>)
    requires WellFormed(w) && a in w.deposits
    requires Follows(w.deposits[a], judge) && JudgedBy(s, a, judge)
    ensures var v := w.vaults[w.deposits[a].vault];
            var w2 := Exec(w, s);
            && DepositOk(w2, a) && w2.deposits[a].vault == w.deposits[a].vault
            && w2.vaults[w.deposits[a].vault].minAttestations == v.minAttestations
            && w2.deposits[a].cleanCount <= |Inclined(v, judge, Clean)|
            && w2.deposits[a].dirtyCount <= |Inclined(v, judge, Dirty)|
  {
    hide Exec, Advance;
    var v := w.vaults[w.deposits[a].vault];
    var w2 := Exec(w, s);
    RunFollows(w, s, a, judge);
    RunContinues(w, s);
    ReachableWellFormed(w, s);
    RunKeepsRules(w, s, w.deposits[a].vault);
    var votes := w2.deposits[a].attestations;
    assert DepositOk(w2, a) && DepositOk(w, a);
    assert Members(w2.vaults[w.deposits[a].vault]) == Members(v);
    CountIsVoters(votes, Clean);
    CountIsVoters(votes, Dirty);
    SubsetSize(VotersFor(votes, Clean), Inclined(v, judge, Clean));
    SubsetSize(VotersFor(votes, Dirty), Inclined(v, judge, Dirty));
  }

  lemma {:induction false} RunKeepsRules(w: World, s: seq<Step>, vault: Address)
    requires vault in w.vaults
    ensures vault in Exec(w, s).vaults && SameRules(w.vaults[vault], Exec(w, s).vaults[vault])
  {
    if s != [] {
      RunKeepsRules(w, s[..|s| - 1], vault);
      AdvanceIsChainStep(Exec(w, s[..|s| - 1]), s[|s| - 1]);
    }
  }
}
