// One deposit whose ephemeral bytes are no point ends all indexing.
module Blocked {
  import opened Wrappers
  import opened Keys
  import opened Ledger
  import opened Radix
  import opened Vault
  import opened Lifecycle
  import opened Curve
  import opened Stealth
  import opened Indexer
  import opened KeyText
  import opened Store
  import opened Webhook
  import opened Mirror
  import opened Witnesses
  import opened MirrorWitness

  ghost predicate Blocks<P>(c: Curve<P>, w: World, a: Address) {
    a in w.deposits && c.decompress(w.deposits[a].ephemeral).None?
  }

  lemma BlockedScan<P>(c: Curve<P>, slices: seq<Slice<P>>, w: World, a: Address, accounts: seq<Account>)
    requires slices != [] && Lists(accounts, w) && Blocks(c, w, a)
    ensures ScanPass(c, slices, accounts).Err?
  {
    var at := PassRefines(c, slices, accounts);
    var i :| 0 <= i < |accounts| && accounts[i] == Account(a, Some(w.deposits[a]));
    assert !Decodable(c, accounts);
  }

  lemma BlockedPass<P>(c: Curve<P>, slices: seq<Slice<P>>, sys: System, a: Address, accounts: seq<Account>)
    requires slices != [] && sys.worlds != [] && Blocks(c, Now(sys), a)
    ensures AfterPass(c, slices, sys, accounts) == sys
  {
    hide Blocks, ScanPass, Lists;
    if Lists(accounts, Now(sys)) {
      BlockedScan(c, slices, Now(sys), a, accounts);
    }
  }

  lemma StillBlocks<P>(c: Curve<P>, w: World, w2: World, a: Address)
    requires Blocks(c, w, a) && Continues(w, w2)
    ensures Blocks(c, w2, a)
  {
  }

  // No match waits, the deposit is there, and only the gateway has touched the
  // records; new ones have never been observed.
  ghost predicate IsBlocked<P>(c: Curve<P>, sys: System, end: System, a: Address) {
    && end.worlds != [] && end.queue == [] && Blocks(c, Now(end), a)
    && |end.records| >= |sys.records|
    && (forall i :: 0 <= i < |sys.records| ==> SameObserved(sys.records[i], end.records[i]))
    && (forall i :: |sys.records| <= i < |end.records| ==> end.records[i].onChainState.None?)
  }

  lemma CallKeepsBlocked<P>(c: Curve<P>, sys: System, mid: System, end: System, a: Address)
    requires IsBlocked(c, sys, mid, a) && IsGatewayCall(mid, end)
    ensures IsBlocked(c, sys, end, a)
  {
    forall i | 0 <= i < |mid.records| ensures SameObserved(mid.records[i], end.records[i]) {
    }
  }

  lemma ChainKeepsBlocked<P>(c: Curve<P>, sys: System, mid: System, end: System, a: Address)
    requires IsBlocked(c, sys, mid, a) && IsChainMove(mid, end)
    ensures IsBlocked(c, sys, end, a)
  {
    hide Blocks, Continues;
    StillBlocks(c, Now(mid), Now(end), a);
  }

  lemma NextKeepsBlocked<P>(c: Curve<P>, slices: seq<Slice<P>>, sys: System, mid: System, a: Address, e: Event)
    requires slices != [] && IsBlocked(c, sys, mid, a)
    ensures IsBlocked(c, sys, Next(c, slices, mid, e), a)
  {
    hide Blocks, AfterChain, AfterPass, DetectedRoute, ReleaseRoute, RefundRoute;
    match e
    case Chain(step) =>
      ChainMove(mid, step);
      ChainKeepsBlocked(c, sys, mid, AfterChain(mid, step), a);
    case BeginPass(accounts) => BlockedPass(c, slices, mid, a, accounts);
    case Deliver(_) =>
    case _ =>
      GatewayMove(c, slices, mid, e);
      CallKeepsBlocked(c, sys, mid, Next(c, slices, mid, e), a);
  }

  // From a moment with nothing left to post and such a deposit on the chain, no
  // continuation posts anything any more: every later pass fails, and records
  // change by the gateway's own calls only.
  lemma {:induction false} BlockedForever<P>(c: Curve<P>, slices: seq<Slice<P>>, sys: System, a: Address,
                                             events: seq<Event>)
    requires slices != [] && sys.worlds != [] && sys.queue == [] && Blocks(c, Now(sys), a)
    ensures IsBlocked(c, sys, Run(c, slices, sys, events), a)
  {
    hide Next, Blocks;
    if events != [] {
      BlockedForever(c, slices, sys, a, events[..|events| - 1]);
      NextKeepsBlocked(c, slices, sys, Run(c, slices, sys, events[..|events| - 1]), a, events[|events| - 1]);
    }
  }

  // The program accepts any ephemeral bytes: a run from a fresh chain after which
  // no record is ever observed, whatever is paid and registered later.
  lemma BlockedRun<P>(c: Curve<P>, slices: seq<Slice<P>>, owner: Signer, rent: Rent, args: DepositArgs)
    returns (w: World, before: seq<Event>)
    requires CheckArgs(args).Pass? && Costs(rent, args.amount) <= U64_MAX
    requires slices != [] && c.decompress(args.ephemeral).None?
    ensures Genesis(w) && w.rent == rent
    ensures forall after :: NeverObserved(Run(c, slices, Start(w), before + after))
  {
    hide Run, Next, Advance;
    var steps;
    w, steps := ApprovedRun(owner, rent, args);
    before := Chains(steps);
    ChainsRun(c, slices, Start(w), steps);
    var sys := Run(c, slices, Start(w), before);
    forall after ensures NeverObserved(Run(c, slices, Start(w), before + after)) {
      RunConcat(c, slices, Start(w), before, after);
      BlockedForever(c, slices, sys, KeyOf(owner, args), after);
    }
  }

  ghost predicate NeverObserved(sys: System) {
    sys.queue == [] && forall i :: 0 <= i < |sys.records| ==> sys.records[i].onChainState.None?
  }

  const ALL_ONES: Key32 :=
    [255, 255, 255, 255, 255, 255, 255, 255, 255, 255, 255, 255, 255, 255, 255, 255,
     255, 255, 255, 255, 255, 255, 255, 255, 255, 255, 255, 255, 255, 255, 255, 255]

  lemma {:induction false} LastByte(bytes: seq<Byte>)
    requires bytes != []
    ensures LeValue(bytes) >= bytes[|bytes| - 1] * Pow(256, |bytes| - 1)
  {
    if |bytes| > 1 {
      LastByte(bytes[1..]);
      assert Pow(256, |bytes| - 1) == 256 * Pow(256, |bytes| - 2);
    }
  }

  // In the instance, 32 bytes of 255 are no point.
  lemma AllOnesIsNoPoint(sha512: seq<Byte> -> Wide)
    ensures ResidueCurve(sha512).decompress(ALL_ONES).None?
  {
    hide LeValue;
    LastByte(ALL_ONES);
    Pow256();
    assert Pow(256, 32) == 256 * Pow(256, 31);
  }
}
