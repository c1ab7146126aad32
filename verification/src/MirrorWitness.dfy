// A run from a fresh chain, with two vaults, in which the gateway's record of a
// payment goes from approved back to pending.
module MirrorWitness {
  import opened Wrappers
  import opened Keys
  import opened Ledger
  import opened Vault
  import opened Curve
  import opened Stealth
  import opened Indexer
  import opened Store
  import opened Webhook
  import opened Mirror
  import opened Resync
  import opened OneDeposit
  import opened Witnesses

  function Chains(steps: seq<Step>): seq<Event> {
    seq(|steps|, i requires 0 <= i < |steps| => Chain(steps[i]))
  }

  lemma {:induction false} ChainsRun<P>(c: Curve<P>, slices: seq<Slice<P>>, sys: System, steps: seq<Step>)
    requires sys.worlds != []
    ensures var end := Run(c, slices, sys, Chains(steps));
            end == sys.(worlds := end.worlds) && Now(end) == Exec(Now(sys), steps)
  {
    hide Advance;
    if steps != [] {
      ChainsRun(c, slices, sys, steps[..|steps| - 1]);
      assert Chains(steps)[..|steps| - 1] == Chains(steps[..|steps| - 1]);
    }
  }

  lemma ScanPassSnoc<P>(c: Curve<P>, slices: seq<Slice<P>>, accounts: seq<Account>, last: Account, m: PaymentMatch)
    requires ScanPass(c, slices, accounts).Ok? && FoundAt(c, slices, last, m)
    ensures ScanPass(c, slices, accounts + [last]) == Ok(ScanPass(c, slices, accounts).value + [m])
  {
    hide Scan;
    assert (accounts + [last])[..|accounts|] == accounts;
  }

  // A payment to the address derived for a slice.
  function PaymentArgs<P>(c: Curve<P>, slice: Slice<P>, viewPub: P, seed: Wide, payer: Address): DepositArgs {
    var a := Derive(c, slice.spendPub, viewPub, seed, slice.nonce);
    DepositArgs(a.stealth, a.ephemeral, a.viewTag, 1, payer, payer, MIN_EXPIRE_SECONDS)
  }

  ghost predicate IsPayment<P>(c: Curve<P>, slice: Slice<P>, spend: Scalar, seed: Wide, account: Account) {
    && slice.spendPub == PublicKey(c, spend) && account.data.Some?
    && var d := account.data.value;
       StealthAddress(d.stealth, d.ephemeral, d.viewTag)
       == Derive(c, slice.spendPub, PublicKey(c, slice.viewKey), seed, slice.nonce)
  }

  lemma PaymentIsFound<P(!new)>(c: Curve<P>, slice: Slice<P>, spend: Scalar, seed: Wide, account: Account)
    returns (m: PaymentMatch)
    requires Lawful(c) && IsPayment(c, slice, spend, seed, account)
    ensures FoundAt(c, [slice], account, m) && IsMatchOf(account, m)
  {
    var _ := HonestDepositIsFound(c, [slice], 0, spend, seed, account.pubkey, account.data.value);
    m := Scan(c, [slice], account.pubkey, account.data.value).value.value;
  }

  // What a pass over one or two such accounts posts.
  lemma PaymentsAreMatched<P(!new)>(c: Curve<P>, slice: Slice<P>, spend: Scalar, seed: Wide, a: Account, b: Account)
    requires Lawful(c) && IsPayment(c, slice, spend, seed, a) && IsPayment(c, slice, spend, seed, b)
    ensures var one, two := ScanPass(c, [slice], [a]), ScanPass(c, [slice], [a, b]);
            && one.Ok? && |one.value| == 1 && IsMatchOf(a, one.value[0])
            && two.Ok? && |two.value| == 2 && IsMatchOf(b, two.value[1])
  {
    var m := PaymentIsFound(c, slice, spend, seed, a);
    var m2 := PaymentIsFound(c, slice, spend, seed, b);
    ScanPassSnoc(c, [slice], [], a, m);
    ScanPassSnoc(c, [slice], [a], b, m2);
    assert [] + [a] == [a] && [a] + [b] == [a, b];
  }

  // Two vaults, and what the first owner needs for two deposits.
  lemma TwoVaults(owner: Signer, owner2: Signer, rent: Rent) returns (w: World, steps: seq<Step>)
    requires owner != owner2 && 2 * (rent.vault + rent.deposit + 1) <= U64_MAX
    ensures Genesis(w) && w.rent == rent
    ensures var w2 := Exec(w, steps);
            && w2.now == 0 && w2.rent == rent && w2.deposits == map[]
            && IsSolo(w2, owner) && IsSolo(w2, owner2) && TotalLamports(w2.lamports) <= U64_MAX
            && Balance(w2.lamports, owner) == 2 * (rent.deposit + 1)
            && forall a: Address :: a.DepositPda? ==> Balance(w2.lamports, a) == 0
  {
    hide Advance;
    var funds := rent.vault + 2 * (rent.deposit + 1);
    w := FreshChain(map[owner := funds][owner2 := rent.vault], rent, map[], {});
    TwoFunded(owner, funds, owner2, rent.vault);
    var init, init2 := Call(InitializeVault(owner, [owner], 1)), Call(InitializeVault(owner2, [owner2], 1));
    ExecSnoc(w, [], init);
    Initialize(w, owner);
    ExecSnoc(w, [] + [init], init2);
    Initialize(Exec(w, [] + [init]), owner2);
    steps := [] + [init] + [init2];
  }

  // The chain with the payment approved in the first owner's vault, and then with
  // the same payment made once more in the second owner's.
  lemma PaidTwice(owner: Signer, owner2: Signer, rent: Rent, args: DepositArgs)
    returns (w: World, steps: seq<Step>, again: Step)
    requires CheckArgs(args).Pass? && args.amount == 1 && owner != owner2
    requires 2 * (rent.vault + rent.deposit + 1) <= U64_MAX
    ensures Genesis(w) && w.rent == rent
    ensures var w1 := Exec(w, steps);
            var w2 := Advance(w1, again).world;
            var a, b := KeyOf(owner, args), KeyOf(owner2, args);
            && a in w1.deposits && w1.deposits.Keys == {a} && w1.deposits[a].state == Approved
            && b !in w1.deposits && b in w2.deposits && w2.deposits == w1.deposits[b := w2.deposits[b]]
            && w2.deposits[b].state == Pending && SamePayment(w1.deposits[a], args) && SamePayment(w2.deposits[b], args)
  {
    hide Advance, Genesis;
    var vaults;
    w, vaults := TwoVaults(owner, owner2, rent);
    var deposit := Call(MakeDeposit(owner, VaultPda(owner), args));
    var attest := Call(Attest(owner, VaultPda(owner), KeyOf(owner, args), Clean, ZERO_KEY));
    again := Call(MakeDeposit(owner, VaultPda(owner2), args));
    ExecSnoc(w, vaults, deposit);
    OpenSol(Exec(w, vaults), owner, owner, args);
    ExecSnoc(w, vaults + [deposit], attest);
    Approve(Exec(w, vaults + [deposit]), owner, KeyOf(owner, args));
    steps := vaults + [deposit] + [attest];
    OpenSol(Exec(w, steps), owner, owner2, args);
  }

  predicate SamePayment(d: Deposit, args: DepositArgs) {
    d.stealth == args.stealth && d.ephemeral == args.ephemeral && d.viewTag == args.viewTag
  }

  // The first pass: a record is opened for the key and shows the approved deposit.
  lemma FirstPass<P>(c: Curve<P>, slice: Slice<P>, sys: System, a: Account)
    requires sys.worlds != [] && sys.queue == [] && sys.records == [] && Lists([a], Now(sys))
    requires var one := ScanPass(c, [slice], [a]); one.Ok? && |one.value| == 1 && IsMatchOf(a, one.value[0])
    ensures a.data.Some?
    ensures var end := Run(c, [slice], sys, Showing(a.data.value.stealth, [a], 1));
            && end.worlds == sys.worlds && end.queue == [] && |end.records| == 1
            && end.records[0].stealth == a.data.value.stealth
            && end.records[0].onChainState == Some(a.data.value.state)
  {
    hide Run, Next, ScanPass;
    var key := a.data.value.stealth;
    var begun := Begun(c, [slice], sys, [a], key);
    ShowingRun(c, [slice], sys, [a], key, 1);
    assert FirstOf(begun.records, key) == 0;
    PostedShows(c, [slice], begun, 1, 0);
    DeliveriesRun(c, [slice], begun, Posts(1));
    RunDrains(c, [slice], begun, Posts(1));
  }

  // The next pass lists the pending deposit last.
  lemma SecondPass<P>(c: Curve<P>, slice: Slice<P>, sys: System, a: Account, b: Account)
    requires sys.worlds != [] && sys.queue == [] && |sys.records| == 1 && Lists([a, b], Now(sys))
    requires var two := ScanPass(c, [slice], [a, b]); two.Ok? && |two.value| == 2 && IsMatchOf(b, two.value[1])
    requires b.data.Some? && sys.records[0].stealth == b.data.value.stealth
    ensures var end := Run(c, [slice], sys, [BeginPass([a, b])] + Posts(2));
            |end.records| == 1 && end.records[0].onChainState == Some(b.data.value.state)
  {
    hide Run, Next, ScanPass;
    var begun := AfterPass(c, [slice], sys, [a, b]);
    PassFillsQueue(c, [slice], sys, [a, b]);
    RunOfPass(c, [slice], sys, [a, b]);
    RunConcat(c, [slice], sys, [BeginPass([a, b])], Posts(2));
    assert FirstOf(begun.records, b.data.value.stealth) == 0;
    PostedShows(c, [slice], begun, 2, 0);
  }

  // Over any lawful group, for any keys, seed, rent and two vault owners.
  lemma RecordGoesBack<P(!new)>(c: Curve<P>, spend: Scalar, view: Scalar, seed: Wide, nonce: U64, owner: Signer,
                                owner2: Signer, rent: Rent)
    returns (w: World, slices: seq<Slice<P>>, before: seq<Event>, after: seq<Event>)
    requires Lawful(c) && owner != owner2 && 2 * (rent.vault + rent.deposit + 1) <= U64_MAX
    ensures Genesis(w) && w.rent == rent
    ensures var records := Run(c, slices, Start(w), before).records;
            var records2 := Run(c, slices, Start(w), before + after).records;
            && |records| == 1 && records[0].onChainState == Some(Approved)
            && |records2| == 1 && records2[0].onChainState == Some(Pending)
  {
    hide Run, Next, Advance, ScanPass, Derive;
    var slice := Slice(0, view, PublicKey(c, spend), nonce);
    slices := [slice];
    var args := PaymentArgs(c, slice, PublicKey(c, view), seed, owner);
    var steps, again;
    w, steps, again := PaidTwice(owner, owner2, rent, args);
    var w1 := Exec(w, steps);
    var w2 := Advance(w1, again).world;
    var ka, kb := KeyOf(owner, args), KeyOf(owner2, args);
    var a, b := Account(ka, Some(w1.deposits[ka])), Account(kb, Some(w2.deposits[kb]));
    PaymentsAreMatched(c, slice, spend, seed, a, b);

    var sys := Run(c, slices, Start(w), Chains(steps));
    ChainsRun(c, slices, Start(w), steps);
    assert Lists([a], w1) by {
      assert [a][0] == Account(ka, Some(w1.deposits[ka]));
    }
    FirstPass(c, slice, sys, a);
    before := Chains(steps) + Showing(args.stealth, [a], 1);
    RunConcat(c, slices, Start(w), Chains(steps), Showing(args.stealth, [a], 1));

    var mid := Run(c, slices, Start(w), before);
    var grown := Run(c, slices, mid, Chains([again]));
    ChainsRun(c, slices, mid, [again]);
    ExecSnoc(w1, [], again);
    assert [] + [again] == [again];
    assert Lists([a, b], w2) by {
      assert [a, b][0] == a && [a, b][1] == b;
    }
    SecondPass(c, slice, grown, a, b);
    after := Chains([again]) + ([BeginPass([a, b])] + Posts(2));
    RunConcat(c, slices, mid, Chains([again]), [BeginPass([a, b])] + Posts(2));
    RunConcat(c, slices, Start(w), before, after);
  }
}
