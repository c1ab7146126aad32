// Where the money is: conservation, escrow coverage and payouts over whole runs.
module Solvency {
  import opened Wrappers
  import opened Keys
  import opened Sums
  import opened Ledger
  import opened Vault
  import opened Lifecycle
  import opened Evidence

  // What an account holds of an asset.
  function Held(w: World, asset: Address, a: Address): int {
    if asset == DEFAULT_KEY then Balance(w.lamports, a)
    else if a in w.tokens && w.tokens[a].mint == asset then w.tokens[a].amount
    else 0
  }

  function NetAt(asset: Address, a: Address): Movement -> int {
    (m: Movement) =>
      if m.asset != asset then 0
      else (if m.to == a then m.amount else 0) - (if m.from == a then m.amount else 0)
  }

  // The deposit account of an unsettled SOL deposit holds its rent and the
  // whole amount; that of a settled one still holds its rent.
  ghost predicate SolCovered(w: World, a: Address)
    requires a in w.deposits
  {
    var d := w.deposits[a];
    IsSol(d) ==> Balance(w.lamports, a) >= w.rent.deposit + (if Settled(d) then 0 else d.amount)
  }

  // The escrow of a token deposit belongs to the deposit account, and that of an
  // unsettled one holds the whole amount.
  ghost predicate TokenCovered(w: World, a: Address)
    requires a in w.deposits
  {
    var d := w.deposits[a];
    var e := EscrowPda(a);
    !IsSol(d) ==>
      && d.mint in w.mints
      && e in w.tokens && w.tokens[e].mint == d.mint && w.tokens[e].owner == a
      && w.tokens[e].amount >= (if Settled(d) then 0 else d.amount)
  }

  ghost predicate Solvent(w: World) {
    && WellFormed(w)
    && DEFAULT_KEY !in w.mints
    && (forall a :: a in w.tokens ==> w.tokens[a].mint in w.mints)
    && TotalLamports(w.lamports) <= U64_MAX
    && (forall a :: a in w.deposits ==> SolCovered(w, a) && TokenCovered(w, a))
  }

  // The movements of an effect account for every balance, and create nothing.
  ghost predicate Explained(w: World, e: Effect) {
    && TotalLamports(e.world.lamports) == TotalLamports(w.lamports)
    && (forall k :: TokenSupply(e.world.tokens, k) == TokenSupply(w.tokens, k))
    && (forall asset, a :: Held(e.world, asset, a) == Held(w, asset, a) + SumSeq(e.moves, NetAt(asset, a)))
  }

  ghost predicate MintsOk(w: World) {
    DEFAULT_KEY !in w.mints && forall a :: a in w.tokens ==> w.tokens[a].mint in w.mints
  }

  lemma OneLamportMove(w: World, from: Address, to: Address, amount: U64, m: Movement, w2: World)
    requires Move(w.lamports, from, to, amount) == Ok(w2.lamports) && w2.tokens == w.tokens
    requires m.asset == DEFAULT_KEY && m.from == from && m.to == to && m.amount == amount
    ensures Explained(w, Effect(w2, [m]))
  {
    MoveEffect(w.lamports, from, to, amount);
    forall asset, a ensures SumSeq([m], NetAt(asset, a)) == NetAt(asset, a)(m) {
      SumSeqShort(m, m, m, NetAt(asset, a));
    }
  }

  lemma OneTokenMove(w: World, from: Address, to: Address, amount: U64, m: Movement, w2: World)
    requires MintsOk(w)
    requires from in w.tokens && to in w.tokens && w.tokens[from].mint == w.tokens[to].mint == m.asset
    requires MoveTokens(w.tokens, from, to, amount) == Ok(w2.tokens) && w2.lamports == w.lamports
    requires m.from == from && m.to == to && m.amount == amount
    ensures Explained(w, Effect(w2, [m]))
    ensures forall a :: a in w2.tokens ==> a in w.tokens && w2.tokens[a].mint == w.tokens[a].mint
  {
    MoveTokensEffect(w.tokens, from, to, amount);
    forall asset, a ensures SumSeq([m], NetAt(asset, a)) == NetAt(asset, a)(m) {
      SumSeqShort(m, m, m, NetAt(asset, a));
    }
  }

  lemma ExplainedTrans(w: World, e: Effect, e2: Effect)
    requires Explained(w, e) && Explained(e.world, e2)
    ensures Explained(w, Effect(e2.world, e.moves + e2.moves))
  {
    forall asset, a ensures SumSeq(e.moves + e2.moves, NetAt(asset, a))
                            == SumSeq(e.moves, NetAt(asset, a)) + SumSeq(e2.moves, NetAt(asset, a))
    {
      SumSeqConcat(e.moves, e2.moves, NetAt(asset, a));
    }
  }

  lemma MakeDepositExplained(w: World, ix: Instruction)
    requires ix.MakeDeposit? && Apply(w, ix).Ok?
    ensures Explained(w, Apply(w, ix).value)
  {
    var e := Apply(w, ix).value;
    var key := DepositPda(ix.vault, ix.args.stealth, ix.args.ephemeral);
    var rent := Shortfall(w.lamports, key, w.rent.deposit);
    var paid := w.(lamports := Move(w.lamports, ix.depositor, key, rent).value);
    OneLamportMove(w, ix.depositor, key, rent, e.moves[0], paid);
    OneLamportMove(paid, ix.depositor, key, ix.args.amount, e.moves[1], e.world);
    ExplainedTrans(w, Effect(paid, [e.moves[0]]), Effect(e.world, [e.moves[1]]));
    assert e.moves == [e.moves[0]] + [e.moves[1]];
  }

  lemma OpenEscrowExplained(w: World, escrow: Address, t: TokenAccount)
    requires escrow !in w.tokens && t.amount == 0
    ensures Explained(w, Effect(w.(tokens := w.tokens[escrow := t]), []))
  {
    forall k ensures TokenSupply(w.tokens[escrow := t], k) == TokenSupply(w.tokens, k) {
      SumByPut(w.tokens, AmountOf(k), escrow, t);
    }
  }

  lemma DepositTokenExplained(w: World, ix: Instruction)
    requires MintsOk(w) && ix.DepositToken? && Apply(w, ix).Ok?
    ensures Explained(w, Apply(w, ix).value) && MintsOk(Apply(w, ix).value.world)
  {
    hide Explained, MoveTokens;
    var e := Apply(w, ix).value;
    var key := DepositPda(ix.vault, ix.args.stealth, ix.args.ephemeral);
    var escrow := EscrowPda(key);
    var rent := Shortfall(w.lamports, key, w.rent.deposit);
    var paid := w.(lamports := Move(w.lamports, ix.depositor, key, rent).value);
    OneLamportMove(w, ix.depositor, key, rent, e.moves[0], paid);
    var escrowRent := Shortfall(paid.lamports, escrow, w.rent.escrow);
    var housed := paid.(lamports := e.world.lamports);
    OneLamportMove(paid, ix.depositor, escrow, escrowRent, e.moves[1], housed);
    var bare := housed.(tokens := w.tokens[escrow := TokenAccount(ix.mint, key, 0)]);
    OpenEscrowExplained(housed, escrow, TokenAccount(ix.mint, key, 0));
    OneTokenMove(bare, ix.source, escrow, ix.args.amount, e.moves[2], e.world);
    ExplainedTrans(w, Effect(paid, [e.moves[0]]), Effect(housed, [e.moves[1]]));
    ExplainedTrans(w, Effect(housed, [e.moves[0]] + [e.moves[1]]), Effect(bare, []));
    ExplainedTrans(w, Effect(bare, [e.moves[0]] + [e.moves[1]] + []), Effect(e.world, [e.moves[2]]));
    assert e.moves == [e.moves[0]] + [e.moves[1]] + [] + [e.moves[2]];
  }

  lemma LamportMoveExplained(w: World, ix: Instruction)
    requires ix.InitializeVault? || ix.Release? || ix.Refund? || ix.SystemTransfer? || ix.Attest?
    requires Apply(w, ix).Ok?
    ensures Explained(w, Apply(w, ix).value) && Apply(w, ix).value.world.tokens == w.tokens
    ensures ix.Attest? ==> Apply(w, ix).value.world.lamports == w.lamports
  {
    var e := Apply(w, ix).value;
    if !ix.Attest? {
      var m := e.moves[0];
      OneLamportMove(w, m.from, m.to, m.amount, m, e.world);
    }
  }

  lemma TokenMoveExplained(w: World, ix: Instruction)
    requires MintsOk(w) && (ix.ReleaseToken? || ix.RefundToken? || ix.TokenTransfer?) && Apply(w, ix).Ok?
    ensures Explained(w, Apply(w, ix).value) && MintsOk(Apply(w, ix).value.world)
    ensures Apply(w, ix).value.world.lamports == w.lamports
  {
    var e := Apply(w, ix).value;
    var m := e.moves[0];
    OneTokenMove(w, m.from, m.to, m.amount, m, e.world);
  }

  lemma AdvanceExplained(w: World, step: Step)
    requires MintsOk(w)
    ensures Explained(w, Advance(w, step)) && MintsOk(Advance(w, step).world)
  {
    if step.Call? && Apply(w, step.ix).Ok? {
      if step.ix.MakeDeposit? {
        MakeDepositExplained(w, step.ix);
      } else if step.ix.DepositToken? {
        DepositTokenExplained(w, step.ix);
      } else if step.ix.ReleaseToken? || step.ix.RefundToken? || step.ix.TokenTransfer? {
        TokenMoveExplained(w, step.ix);
      } else {
        LamportMoveExplained(w, step.ix);
      }
    }
  }

  // Over any run no lamport and no token is created or lost, whatever targets
  // were chosen, and the log of movements explains every balance exactly.
  lemma {:induction false} Conservation(w: World, steps: seq<Step>)
    requires MintsOk(w)
    ensures Explained(w, Effect(Exec(w, steps), Log(w, steps))) && MintsOk(Exec(w, steps))
  {
    if steps == [] {
    } else {
      var before := steps[..|steps| - 1];
      Conservation(w, before);
      AdvanceExplained(Exec(w, before), steps[|steps| - 1]);
      ExplainedTrans(w, Effect(Exec(w, before), Log(w, before)), Advance(Exec(w, before), steps[|steps| - 1]));
    }
  }
}
