// The chain, the indexer's passes, deliveries that may be lost and the
// gateway's own calls, interleaved in any order.
module Mirror {
  import opened Wrappers
  import opened Keys
  import opened Vault
  import opened Lifecycle
  import opened Curve
  import opened Stealth
  import opened Indexer
  import opened Store
  import opened Webhook
  import E = Evidence

  // Every chain state so far, the index of the one the current pass saw, the
  // bodies of that pass not yet posted, and the gateway's records.
  datatype System = System(worlds: seq<World>, seen: nat, queue: seq<PaymentMatch>, records: seq<Record>)

  datatype Event =
    | Chain(step: Step)
    | BeginPass(accounts: seq<Account>)
    | Deliver(at: int)
    | Lose
    | CreateDeposit(institutionId: string, stealth: Key32, expiresAt: int, at: int)
    | GatewayRelease(institutionId: string, id: string)
    | GatewayRefund(institutionId: string, id: string, at: int)

  function Now(sys: System): World
    requires sys.worlds != []
  {
    sys.worlds[|sys.worlds| - 1]
  }

  // What the RPC returns: the deposits of the chain, each once, in any order,
  // possibly among accounts that do not decode.
  ghost predicate Lists(accounts: seq<Account>, w: World) {
    && (forall i :: 0 <= i < |accounts| && accounts[i].data.Some? ==>
                      accounts[i].pubkey in w.deposits && accounts[i].data.value == w.deposits[accounts[i].pubkey])
    && (forall i, j :: 0 <= i < j < |accounts| ==> accounts[i].pubkey != accounts[j].pubkey)
    && (forall a :: a in w.deposits ==>
                      exists i :: 0 <= i < |accounts| && accounts[i] == Account(a, Some(w.deposits[a])))
  }

  function AfterChain(sys: System, step: Step): System
    requires sys.worlds != []
  {
    sys.(worlds := sys.worlds + [Advance(Now(sys), step).world])
  }

  // The indexer is single-threaded: a pass begins when the last one is posted.
  ghost function AfterPass<P>(c: Curve<P>, slices: seq<Slice<P>>, sys: System, accounts: seq<Account>): System
    requires sys.worlds != []
  {
    if sys.queue != [] || !Lists(accounts, Now(sys)) then sys
    else
      match ScanPass(c, slices, accounts)
      case Ok(matches) => sys.(seen := |sys.worlds| - 1, queue := matches)
      case Err(_) => sys
  }

  function AfterDelivery(sys: System, at: int): System {
    if sys.queue == [] then sys
    else sys.(records := DetectedRoute(sys.records, Notify(sys.queue[0]), at).0, queue := sys.queue[1..])
  }

  ghost function Next<P>(c: Curve<P>, slices: seq<Slice<P>>, sys: System, e: Event): System
    requires sys.worlds != []
  {
    match e
    case Chain(step) => AfterChain(sys, step)
    case BeginPass(accounts) => AfterPass(c, slices, sys, accounts)
    case Deliver(at) => AfterDelivery(sys, at)
    case Lose => if sys.queue == [] then sys else sys.(queue := sys.queue[1..])
    case CreateDeposit(institutionId, stealth, expiresAt, at) =>
      sys.(records := sys.records + [NewRecord(|sys.records| + 1, institutionId, stealth, expiresAt, at)])
    case GatewayRelease(institutionId, id) => sys.(records := ReleaseRoute(sys.records, institutionId, id).0)
    case GatewayRefund(institutionId, id, at) => sys.(records := RefundRoute(sys.records, institutionId, id, at).0)
  }

  ghost function Run<P>(c: Curve<P>, slices: seq<Slice<P>>, sys: System, events: seq<Event>): (r: System)
    requires sys.worlds != []
    ensures |r.worlds| >= |sys.worlds|
  {
    if events == [] then sys
    else Next(c, slices, Run(c, slices, sys, events[..|events| - 1]), events[|events| - 1])
  }

  function Start(w: World): System {
    System([w], 0, [], [])
  }

  // -------------------------------------------------------------------------
  // The invariant

  // The indexer recognises the deposit at `a` as one of its slices'.
  ghost predicate Recognised<P>(c: Curve<P>, slices: seq<Slice<P>>, w: World, a: Address) {
    a in w.deposits && Scan(c, slices, a, w.deposits[a]).Ok? && Scan(c, slices, a, w.deposits[a]).value.Some?
  }

  ghost predicate MatchIn<P>(c: Curve<P>, slices: seq<Slice<P>>, w: World, m: PaymentMatch) {
    Recognised(c, slices, w, m.depositPubkey)
    && Scan(c, slices, m.depositPubkey, w.deposits[m.depositPubkey]) == Ok(Some(m))
  }

  // The deposit at `a` was in state `s` at some chain state that a pass has seen,
  // number `from` or a later one.
  ghost predicate WasIn(from: nat, sys: System, a: Address, s: DepositState) {
    exists j :: from <= j <= sys.seen < |sys.worlds| && HeldIn(sys.worlds[j], a, s)
  }

  predicate HeldIn(w: World, a: Address, s: DepositState) {
    a in w.deposits && w.deposits[a].state == s
  }

  ghost predicate RecordOk<P>(c: Curve<P>, slices: seq<Slice<P>>, sys: System, r: Record)
    requires sys.seen < |sys.worlds|
  {
    r.onChainState.Some? ==>
      && r.onChainAddress.Some? && r.onChainAmount.Some?
      && var a := r.onChainAddress.value;
         var w := sys.worlds[sys.seen];
         && Recognised(c, slices, w, a)
         && w.deposits[a].stealth == r.stealth
         && r.onChainAmount.value == JsNumber(w.deposits[a].amount)
         && WasIn(0, sys, a, r.onChainState.value)
         && Ahead(r.onChainState.value, w.deposits[a].state)
  }

  ghost predicate RecordsOk<P>(c: Curve<P>, slices: seq<Slice<P>>, sys: System)
    requires sys.seen < |sys.worlds|
  {
    forall i :: 0 <= i < |sys.records| ==> RecordOk(c, slices, sys, sys.records[i])
  }

  ghost predicate MatchesIn<P>(c: Curve<P>, slices: seq<Slice<P>>, w: World, matches: seq<PaymentMatch>) {
    forall k :: 0 <= k < |matches| ==> MatchIn(c, slices, w, matches[k])
  }

  ghost predicate WorldsContinue(worlds: seq<World>) {
    forall i, j :: 0 <= i <= j < |worlds| ==> Continues(worlds[i], worlds[j])
  }

  ghost predicate SystemOk<P>(c: Curve<P>, slices: seq<Slice<P>>, sys: System) {
    && sys.seen < |sys.worlds|
    && WorldsContinue(sys.worlds)
    && MatchesIn(c, slices, sys.worlds[sys.seen], sys.queue)
    && RecordsOk(c, slices, sys)
  }

  // Recognition depends only on terms of a deposit that never change.
  lemma {:induction false} ScanStable<P>(c: Curve<P>, slices: seq<Slice<P>>, a: Address, d: Deposit, d2: Deposit)
    requires SameTerms(d, d2)
    ensures var r, r2 := Scan(c, slices, a, d), Scan(c, slices, a, d2);
            && (r.Ok? <==> r2.Ok?)
            && (r.Ok? ==> (r.value.Some? <==> r2.value.Some?))
  {
    if slices != [] {
      assert ScanSlice(c, slices[0], d) == ScanSlice(c, slices[0], d2);
      ScanStable(c, slices[1..], a, d, d2);
    }
  }

  lemma RecognisedStable<P>(c: Curve<P>, slices: seq<Slice<P>>, w: World, w2: World, a: Address)
    requires Continues(w, w2) && a in w.deposits
    ensures Recognised(c, slices, w, a) <==> Recognised(c, slices, w2, a)
  {
    ScanStable(c, slices, a, w.deposits[a], w2.deposits[a]);
  }

  lemma MatchShape<P>(c: Curve<P>, slices: seq<Slice<P>>, a: Address, d: Deposit) returns (i: nat)
    requires Scan(c, slices, a, d).Ok? && Scan(c, slices, a, d).value.Some?
    ensures var m := Scan(c, slices, a, d).value.value;
            && FirstMatch(c, slices, d, i) && m.sliceId == slices[i].sliceId
            && m.depositPubkey == a && m.stealthPubkey == d.stealth && m.amount == d.amount && m.state == d.state
  {
    i := ScanFindsFirst(c, slices, a, d);
  }

  // -------------------------------------------------------------------------
  // What an event does, by kind

  ghost predicate IsChainMove(sys: System, sys2: System)
    requires sys.worlds != []
  {
    && |sys2.worlds| == |sys.worlds| + 1 && sys.worlds <= sys2.worlds
    && Continues(Now(sys), Now(sys2))
    && sys2 == sys.(worlds := sys2.worlds)
  }

  ghost predicate IsPass<P>(c: Curve<P>, slices: seq<Slice<P>>, sys: System, sys2: System)
    requires sys.worlds != []
  {
    sys2 == sys.(seen := |sys.worlds| - 1, queue := sys2.queue) && MatchesIn(c, slices, Now(sys), sys2.queue)
  }

  ghost predicate IsPost(sys: System, sys2: System, at: int) {
    sys.queue != [] && sys2 == sys.(records := ObserveMatch(sys.records, sys.queue[0], at), queue := sys.queue[1..])
  }

  // The gateway's own calls touch neither the observed fields nor the keys.
  ghost predicate SameObserved(r: Record, r2: Record) {
    r2 == r.(state := r2.state)
  }

  ghost predicate IsGatewayCall(sys: System, sys2: System) {
    && sys2 == sys.(records := sys2.records, queue := sys2.queue)
    && (sys2.queue == sys.queue || (sys.queue != [] && sys2.queue == sys.queue[1..]))
    && |sys2.records| >= |sys.records|
    && (forall i :: 0 <= i < |sys.records| ==> SameObserved(sys.records[i], sys2.records[i]))
    && (forall i :: |sys.records| <= i < |sys2.records| ==> sys2.records[i].onChainState.None?)
  }

  lemma ChainMove(sys: System, step: Step)
    requires sys.worlds != []
    ensures IsChainMove(sys, AfterChain(sys, step))
  {
    AdvanceIsChainStep(Now(sys), step);
    ChainStepContinues(Now(sys), Advance(Now(sys), step).world);
  }

  lemma PassFindsMatches<P>(c: Curve<P>, slices: seq<Slice<P>>, w: World, accounts: seq<Account>)
    requires Lists(accounts, w) && ScanPass(c, slices, accounts).Ok?
    ensures MatchesIn(c, slices, w, ScanPass(c, slices, accounts).value)
  {
    var matches := ScanPass(c, slices, accounts).value;
    var at := PassRefines(c, slices, accounts);
    forall k | 0 <= k < |matches| ensures MatchIn(c, slices, w, matches[k]) {
      assert FoundAt(c, slices, accounts[at[k]], matches[k]);
      var _ := MatchShape(c, slices, accounts[at[k]].pubkey, accounts[at[k]].data.value);
    }
  }

  // A pass changes nothing or fills the empty queue with what it found.
  lemma PassMove<P>(c: Curve<P>, slices: seq<Slice<P>>, sys: System, accounts: seq<Account>)
    requires sys.worlds != []
    ensures var sys2 := AfterPass(c, slices, sys, accounts); sys2 == sys || IsPass(c, slices, sys, sys2)
  {
    if sys.queue == [] && Lists(accounts, Now(sys)) && ScanPass(c, slices, accounts).Ok? {
      PassFindsMatches(c, slices, Now(sys), accounts);
    }
  }

  lemma PostMove(sys: System, at: int)
    ensures AfterDelivery(sys, at) == sys || IsPost(sys, AfterDelivery(sys, at), at)
  {
    if sys.queue != [] {
      DeliveryFindsKey(sys.records, sys.queue[0], at);
    }
  }

  lemma GatewayMove<P>(c: Curve<P>, slices: seq<Slice<P>>, sys: System, e: Event)
    requires sys.worlds != [] && (e.GatewayRelease? || e.GatewayRefund? || e.CreateDeposit? || e.Lose?)
    ensures IsGatewayCall(sys, Next(c, slices, sys, e))
    ensures e.Lose? || Next(c, slices, sys, e).queue == sys.queue
  {
  }

  ghost predicate IsMove<P>(c: Curve<P>, slices: seq<Slice<P>>, sys: System, sys2: System)
    requires sys.worlds != []
  {
    || sys2 == sys
    || IsChainMove(sys, sys2)
    || IsPass(c, slices, sys, sys2)
    || (exists at :: IsPost(sys, sys2, at))
    || IsGatewayCall(sys, sys2)
  }

  lemma NextIsMove<P>(c: Curve<P>, slices: seq<Slice<P>>, sys: System, e: Event)
    requires sys.worlds != []
    ensures IsMove(c, slices, sys, Next(c, slices, sys, e))
  {
    match e
    case Chain(step) => ChainMove(sys, step);
    case BeginPass(accounts) => PassMove(c, slices, sys, accounts);
    case Deliver(at) => PostMove(sys, at);
    case _ => GatewayMove(c, slices, sys, e);
  }

  // -------------------------------------------------------------------------
  // Every move keeps the invariant

  // What was true of a record stays true as the chain and the passes go on.
  lemma RecordStaysOk<P>(c: Curve<P>, slices: seq<Slice<P>>, sys: System, sys2: System, r: Record)
    requires sys.seen < |sys.worlds| && sys2.seen < |sys2.worlds| && RecordOk(c, slices, sys, r)
    requires sys.worlds <= sys2.worlds && sys.seen <= sys2.seen
    requires Continues(sys.worlds[sys.seen], sys2.worlds[sys2.seen])
    ensures RecordOk(c, slices, sys2, r)
  {
    if r.onChainState.Some? {
      var a, s := r.onChainAddress.value, r.onChainState.value;
      RecognisedStable(c, slices, sys.worlds[sys.seen], sys2.worlds[sys2.seen], a);
      WasInGrows(0, sys, sys2, a, s);
    }
  }

  lemma WasInGrows(from: nat, sys: System, sys2: System, a: Address, s: DepositState)
    requires WasIn(from, sys, a, s)
    requires sys.worlds <= sys2.worlds && sys.seen <= sys2.seen < |sys2.worlds|
    ensures WasIn(from, sys2, a, s)
  {
    var j :| from <= j <= sys.seen < |sys.worlds| && HeldIn(sys.worlds[j], a, s);
    assert HeldIn(sys2.worlds[j], a, s);
  }

  lemma WorldsContinueSnoc(worlds: seq<World>, worlds2: seq<World>)
    requires WorldsContinue(worlds) && worlds != [] && worlds <= worlds2 && |worlds2| == |worlds| + 1
    requires Continues(worlds[|worlds| - 1], worlds2[|worlds|])
    ensures WorldsContinue(worlds2)
  {
    var last := |worlds| - 1;
    forall i, j | 0 <= i <= j < |worlds2| ensures Continues(worlds2[i], worlds2[j]) {
      if i <= last && j == last + 1 {
        ContinuesTrans(worlds[i], worlds[last], worlds2[j]);
      }
    }
  }

  lemma RecordsStayOk<P>(c: Curve<P>, slices: seq<Slice<P>>, sys: System, sys2: System)
    requires sys.seen < |sys.worlds| && sys2.seen < |sys2.worlds| && RecordsOk(c, slices, sys)
    requires sys.worlds <= sys2.worlds && sys.seen <= sys2.seen && sys2.records == sys.records
    requires Continues(sys.worlds[sys.seen], sys2.worlds[sys2.seen])
    ensures RecordsOk(c, slices, sys2)
  {
    forall i | 0 <= i < |sys2.records| ensures RecordOk(c, slices, sys2, sys2.records[i]) {
      RecordStaysOk(c, slices, sys, sys2, sys.records[i]);
    }
  }

  lemma ChainKeepsOk<P>(c: Curve<P>, slices: seq<Slice<P>>, sys: System, sys2: System)
    requires SystemOk(c, slices, sys) && IsChainMove(sys, sys2)
    ensures SystemOk(c, slices, sys2)
  {
    WorldsContinueSnoc(sys.worlds, sys2.worlds);
    RecordsStayOk(c, slices, sys, sys2);
  }

  lemma PassKeepsOk<P>(c: Curve<P>, slices: seq<Slice<P>>, sys: System, sys2: System)
    requires SystemOk(c, slices, sys) && IsPass(c, slices, sys, sys2)
    ensures SystemOk(c, slices, sys2)
  {
    assert Continues(sys.worlds[sys.seen], Now(sys));
    RecordsStayOk(c, slices, sys, sys2);
  }

  lemma ObservedOk<P>(c: Curve<P>, slices: seq<Slice<P>>, sys: System, m: PaymentMatch, r: Record, at: int)
    requires sys.seen < |sys.worlds| && MatchIn(c, slices, sys.worlds[sys.seen], m) && r.stealth == m.stealthPubkey
    ensures RecordOk(c, slices, sys, Observed(r, ObservationOf(m), at))
    ensures WasIn(sys.seen, sys, m.depositPubkey, m.state)
  {
    var _ := MatchShape(c, slices, m.depositPubkey, sys.worlds[sys.seen].deposits[m.depositPubkey]);
    assert HeldIn(sys.worlds[sys.seen], m.depositPubkey, m.state);
  }

  lemma PostKeepsOk<P>(c: Curve<P>, slices: seq<Slice<P>>, sys: System, sys2: System, at: int)
    requires SystemOk(c, slices, sys) && IsPost(sys, sys2, at)
    ensures SystemOk(c, slices, sys2)
  {
    var m := sys.queue[0];
    forall i | 0 <= i < |sys2.records| ensures RecordOk(c, slices, sys2, sys2.records[i]) {
      assert RecordOk(c, slices, sys, sys.records[i]);
      if i == FirstOf(sys.records, m.stealthPubkey) {
        ObservedOk(c, slices, sys2, m, sys.records[i], at);
      } else {
        RecordStaysOk(c, slices, sys, sys2, sys.records[i]);
      }
    }
  }

  lemma GatewayKeepsOk<P>(c: Curve<P>, slices: seq<Slice<P>>, sys: System, sys2: System)
    requires SystemOk(c, slices, sys) && IsGatewayCall(sys, sys2)
    ensures SystemOk(c, slices, sys2)
  {
    forall i | 0 <= i < |sys2.records| ensures RecordOk(c, slices, sys2, sys2.records[i]) {
      if i < |sys.records| {
        assert RecordOk(c, slices, sys, sys.records[i]) && SameObserved(sys.records[i], sys2.records[i]);
      }
    }
  }

  lemma MoveKeepsOk<P>(c: Curve<P>, slices: seq<Slice<P>>, sys: System, sys2: System)
    requires SystemOk(c, slices, sys) && IsMove(c, slices, sys, sys2)
    ensures SystemOk(c, slices, sys2)
  {
    if IsChainMove(sys, sys2) {
      ChainKeepsOk(c, slices, sys, sys2);
    } else if IsPass(c, slices, sys, sys2) {
      PassKeepsOk(c, slices, sys, sys2);
    } else if at :| IsPost(sys, sys2, at) {
      PostKeepsOk(c, slices, sys, sys2, at);
    } else if IsGatewayCall(sys, sys2) {
      GatewayKeepsOk(c, slices, sys, sys2);
    }
  }

  lemma {:induction false} RunOk<P>(c: Curve<P>, slices: seq<Slice<P>>, sys: System, events: seq<Event>)
    requires SystemOk(c, slices, sys)
    ensures SystemOk(c, slices, Run(c, slices, sys, events))
  {
    if events != [] {
      var before := Run(c, slices, sys, events[..|events| - 1]);
      RunOk(c, slices, sys, events[..|events| - 1]);
      NextIsMove(c, slices, before, events[|events| - 1]);
      MoveKeepsOk(c, slices, before, Next(c, slices, before, events[|events| - 1]));
    }
  }

  // -------------------------------------------------------------------------
  // What the mirror says about the chain

  ghost predicate ReallyWas<P>(c: Curve<P>, slices: seq<Slice<P>>, w: World, r: Record) {
    && r.onChainAddress.Some? && Recognised(c, slices, w, r.onChainAddress.value)
    && var d := w.deposits[r.onChainAddress.value];
       && d.stealth == r.stealth
       && r.onChainState == Some(d.state)
       && r.onChainAmount == Some(JsNumber(d.amount))
  }

  lemma RecordReallyWas<P>(c: Curve<P>, slices: seq<Slice<P>>, sys: System, r: Record) returns (j: nat)
    requires SystemOk(c, slices, sys) && RecordOk(c, slices, sys, r) && r.onChainState.Some?
    ensures j < |sys.worlds| && ReallyWas(c, slices, sys.worlds[j], r)
  {
    var a := r.onChainAddress.value;
    j :| 0 <= j <= sys.seen < |sys.worlds| && HeldIn(sys.worlds[j], a, r.onChainState.value);
    assert Continues(sys.worlds[j], sys.worlds[sys.seen]);
    RecognisedStable(c, slices, sys.worlds[j], sys.worlds[sys.seen], a);
  }

  // What a record may say while the chain has gone through these states.
  ghost predicate TrueRecord<P>(c: Curve<P>, slices: seq<Slice<P>>, worlds: seq<World>, r: Record) {
    r.onChainState.Some? ==>
      && r.onChainState != Some(Expired)
      && exists j :: 0 <= j < |worlds| && ReallyWas(c, slices, worlds[j], r)
  }

  lemma OkIsTrue<P>(c: Curve<P>, slices: seq<Slice<P>>, sys: System, i: nat)
    requires SystemOk(c, slices, sys) && AllWellFormed(sys.worlds) && i < |sys.records|
    ensures TrueRecord(c, slices, sys.worlds, sys.records[i])
  {
    assert RecordOk(c, slices, sys, sys.records[i]);
    if sys.records[i].onChainState.Some? {
      var j := RecordReallyWas(c, slices, sys, sys.records[i]);
      NeverExpired(sys.worlds[j], sys.records[i].onChainAddress.value);
    }
  }

  // In every interleaving, a record's on-chain state is unset or a state that a
  // recognised deposit account of its own stealth key really held, never Expired,
  // and the recorded amount is that deposit's as JSON carries it.
  lemma MirrorIsTrue<P>(c: Curve<P>, slices: seq<Slice<P>>, w: World, events: seq<Event>, i: nat)
    requires Genesis(w) && i < |Run(c, slices, Start(w), events).records|
    ensures var sys := Run(c, slices, Start(w), events); TrueRecord(c, slices, sys.worlds, sys.records[i])
  {
    RunOk(c, slices, Start(w), events);
    RunWellFormed(c, slices, Start(w), events);
    OkIsTrue(c, slices, Run(c, slices, Start(w), events), i);
  }

  lemma NeverExpired(w: World, a: Address)
    requires E.WellFormed(w) && a in w.deposits
    ensures w.deposits[a].state != Expired
  {
    assert E.DepositOk(w, a);
  }

  ghost predicate AllWellFormed(worlds: seq<World>) {
    forall j :: 0 <= j < |worlds| ==> E.WellFormed(worlds[j])
  }

  lemma NextWellFormed<P>(c: Curve<P>, slices: seq<Slice<P>>, sys: System, e: Event)
    requires sys.worlds != [] && AllWellFormed(sys.worlds)
    ensures AllWellFormed(Next(c, slices, sys, e).worlds)
  {
    if e.Chain? {
      AdvanceIsChainStep(Now(sys), e.step);
      E.ChainStepKeepsWellFormed(Now(sys), Advance(Now(sys), e.step).world);
    }
  }

  lemma {:induction false} RunWellFormed<P>(c: Curve<P>, slices: seq<Slice<P>>, sys: System, events: seq<Event>)
    requires sys.worlds != [] && AllWellFormed(sys.worlds)
    ensures AllWellFormed(Run(c, slices, sys, events).worlds)
  {
    if events != [] {
      RunWellFormed(c, slices, sys, events[..|events| - 1]);
      NextWellFormed(c, slices, Run(c, slices, sys, events[..|events| - 1]), events[|events| - 1]);
    }
  }

  // -------------------------------------------------------------------------
  // How a record changes between two moments

  ghost predicate SameView(r: Record, r2: Record) {
    r2.onChainAddress == r.onChainAddress && r2.onChainAmount == r.onChainAmount
    && r2.onChainState == r.onChainState && r2.onChainObservedAt == r.onChainObservedAt
  }

  // The record as it was, or as some chain state since number `from` has shown it.
  ghost predicate RecordFollows(from: nat, sys: System, r: Record, r2: Record) {
    && r2.id == r.id && r2.stealth == r.stealth
    && (SameView(r, r2)
        || (r2.onChainAddress.Some? && r2.onChainState.Some?
            && WasIn(from, sys, r2.onChainAddress.value, r2.onChainState.value)))
  }

  ghost predicate Follows(start: System, sys: System) {
    && start.worlds <= sys.worlds && start.seen <= sys.seen < |sys.worlds|
    && |start.records| <= |sys.records|
    && (forall i :: 0 <= i < |start.records| ==> RecordFollows(start.seen, sys, start.records[i], sys.records[i]))
  }

  lemma FollowsOnward(start: System, sys: System, sys2: System)
    requires Follows(start, sys) && sys2.records == sys.records
    requires sys.worlds <= sys2.worlds && sys.seen <= sys2.seen < |sys2.worlds|
    ensures Follows(start, sys2)
  {
    forall i | 0 <= i < |start.records|
      ensures RecordFollows(start.seen, sys2, start.records[i], sys2.records[i])
    {
      var r, r2 := start.records[i], sys.records[i];
      assert RecordFollows(start.seen, sys, r, r2);
      if !SameView(r, r2) {
        WasInGrows(start.seen, sys, sys2, r2.onChainAddress.value, r2.onChainState.value);
      }
    }
  }

  lemma PostFollows<P>(c: Curve<P>, slices: seq<Slice<P>>, start: System, sys: System, sys2: System, at: int)
    requires SystemOk(c, slices, sys) && Follows(start, sys) && IsPost(sys, sys2, at)
    ensures Follows(start, sys2)
  {
    var m := sys.queue[0];
    var hit := FirstOf(sys.records, m.stealthPubkey);
    forall i | 0 <= i < |start.records|
      ensures RecordFollows(start.seen, sys2, start.records[i], sys2.records[i])
    {
      var r, r2 := start.records[i], sys.records[i];
      assert RecordFollows(start.seen, sys, r, r2);
      if i == hit {
        ObservedOk(c, slices, sys2, m, r2, at);
        WasInSince(start.seen, sys2, m.depositPubkey, m.state);
      } else if !SameView(r, r2) {
        WasInGrows(start.seen, sys, sys2, r2.onChainAddress.value, r2.onChainState.value);
      }
    }
  }

  lemma WasInSince(from: nat, sys: System, a: Address, s: DepositState)
    requires WasIn(sys.seen, sys, a, s) && from <= sys.seen
    ensures WasIn(from, sys, a, s)
  {
  }

  lemma GatewayFollows(start: System, sys: System, sys2: System)
    requires Follows(start, sys) && IsGatewayCall(sys, sys2)
    ensures Follows(start, sys2)
  {
    forall i | 0 <= i < |start.records|
      ensures RecordFollows(start.seen, sys2, start.records[i], sys2.records[i])
    {
      var r, r2 := start.records[i], sys.records[i];
      assert RecordFollows(start.seen, sys, r, r2) && SameObserved(r2, sys2.records[i]);
      if !SameView(r, r2) {
        WasInGrows(start.seen, sys, sys2, r2.onChainAddress.value, r2.onChainState.value);
      }
    }
  }

  lemma MoveFollows<P>(c: Curve<P>, slices: seq<Slice<P>>, start: System, sys: System, sys2: System)
    requires SystemOk(c, slices, sys) && Follows(start, sys) && IsMove(c, slices, sys, sys2)
    ensures Follows(start, sys2)
  {
    if IsChainMove(sys, sys2) || IsPass(c, slices, sys, sys2) {
      FollowsOnward(start, sys, sys2);
    } else if at :| IsPost(sys, sys2, at) {
      PostFollows(c, slices, start, sys, sys2, at);
    } else if IsGatewayCall(sys, sys2) {
      GatewayFollows(start, sys, sys2);
    }
  }

  lemma {:induction false} RunFollows<P>(c: Curve<P>, slices: seq<Slice<P>>, sys: System, events: seq<Event>)
    requires SystemOk(c, slices, sys)
    ensures Follows(sys, Run(c, slices, sys, events))
  {
    if events != [] {
      var before := Run(c, slices, sys, events[..|events| - 1]);
      RunFollows(c, slices, sys, events[..|events| - 1]);
      RunOk(c, slices, sys, events[..|events| - 1]);
      NextIsMove(c, slices, before, events[|events| - 1]);
      MoveFollows(c, slices, sys, before, Next(c, slices, before, events[|events| - 1]));
    }
  }

  // The later record is the same record; once seen on the chain it stays seen;
  // and for as long as it shows one deposit, that deposit's state moves ahead.
  ghost predicate AheadPerDeposit(r: Record, r2: Record) {
    && r2.id == r.id && r2.stealth == r.stealth
    && (r.onChainState.Some? ==>
          && r2.onChainState.Some? && r2.onChainAddress.Some? && r2.onChainAmount.Some?
          && (r2.onChainAddress == r.onChainAddress ==>
                Ahead(r.onChainState.value, r2.onChainState.value) && r2.onChainAmount == r.onChainAmount))
  }

  ghost predicate AllAheadPerDeposit(records: seq<Record>, records2: seq<Record>) {
    |records| <= |records2| && forall i :: 0 <= i < |records| ==> AheadPerDeposit(records[i], records2[i])
  }

  lemma LaterState(worlds: seq<World>, i: nat, j: nat, a: Address, s: DepositState)
    requires WorldsContinue(worlds) && i <= j < |worlds| && a in worlds[i].deposits
    requires Ahead(s, worlds[i].deposits[a].state)
    ensures a in worlds[j].deposits && SameTerms(worlds[i].deposits[a], worlds[j].deposits[a])
    ensures Ahead(s, worlds[j].deposits[a].state)
  {
    assert Continues(worlds[i], worlds[j]);
  }

  lemma RecordAhead<P>(c: Curve<P>, slices: seq<Slice<P>>, sys: System, end: System, r: Record, r2: Record)
    requires SystemOk(c, slices, sys) && SystemOk(c, slices, end) && Follows(sys, end)
    requires RecordOk(c, slices, sys, r) && RecordOk(c, slices, end, r2) && RecordFollows(sys.seen, end, r, r2)
    ensures AheadPerDeposit(r, r2)
  {
    hide Recognised, WorldsContinue, MatchesIn, RecordsOk, Ahead, JsNumber;
    if r.onChainState.Some? && r2.onChainAddress == r.onChainAddress && !SameView(r, r2) {
      var a := r.onChainAddress.value;
      var j :| sys.seen <= j <= end.seen < |end.worlds| && HeldIn(end.worlds[j], a, r2.onChainState.value);
      assert end.worlds[sys.seen] == sys.worlds[sys.seen];
      RecognisedHere(c, slices, sys.worlds[sys.seen], a);
      LaterState(end.worlds, sys.seen, j, a, r.onChainState.value);
      LaterState(end.worlds, sys.seen, end.seen, a, r.onChainState.value);
    } else {
      AheadItself(r);
    }
  }

  lemma RecognisedHere<P>(c: Curve<P>, slices: seq<Slice<P>>, w: World, a: Address)
    requires Recognised(c, slices, w, a)
    ensures a in w.deposits
  {
  }

  lemma AheadItself(r: Record)
    ensures r.onChainState.Some? ==> Ahead(r.onChainState.value, r.onChainState.value)
  {
  }

  // From any consistent state on, in every interleaving and whatever was lost on
  // the way: for as long as a record shows one deposit, its on-chain state moves
  // forward through Pending, then Approved or Rejected, then Released or
  // Refunded, and its amount stays.
  lemma MirrorMovesAhead<P>(c: Curve<P>, slices: seq<Slice<P>>, sys: System, events: seq<Event>)
    requires SystemOk(c, slices, sys)
    ensures AllAheadPerDeposit(sys.records, Run(c, slices, sys, events).records)
  {
    var end := Run(c, slices, sys, events);
    RunOk(c, slices, sys, events);
    RunFollows(c, slices, sys, events);
    forall i | 0 <= i < |sys.records| ensures AheadPerDeposit(sys.records[i], end.records[i]) {
      RecordAhead(c, slices, sys, end, sys.records[i], end.records[i]);
    }
  }

  // One recognised deposit account per stealth key.
  ghost predicate OneDepositPerKey<P>(c: Curve<P>, slices: seq<Slice<P>>, w: World) {
    forall a, b | Recognised(c, slices, w, a) && Recognised(c, slices, w, b) ::
      w.deposits[a].stealth == w.deposits[b].stealth ==> a == b
  }

  // The later record moved ahead and still shows the same deposit.
  ghost predicate MovedAhead(r: Record, r2: Record) {
    AheadPerDeposit(r, r2) && (r.onChainState.Some? ==> r2.onChainAddress == r.onChainAddress)
  }

  ghost predicate AllMovedAhead(records: seq<Record>, records2: seq<Record>) {
    |records| <= |records2| && forall i :: 0 <= i < |records| ==> MovedAhead(records[i], records2[i])
  }

  lemma SameDeposit<P>(c: Curve<P>, slices: seq<Slice<P>>, sys: System, end: System, r: Record, r2: Record)
    requires SystemOk(c, slices, sys) && SystemOk(c, slices, end) && Follows(sys, end)
    requires OneDepositPerKey(c, slices, Now(end))
    requires RecordOk(c, slices, sys, r) && RecordOk(c, slices, end, r2) && r2.stealth == r.stealth
    requires r.onChainState.Some? && r2.onChainState.Some?
    ensures r2.onChainAddress == r.onChainAddress
  {
    var a, b := r.onChainAddress.value, r2.onChainAddress.value;
    assert end.worlds[sys.seen] == sys.worlds[sys.seen];
    assert Continues(end.worlds[sys.seen], Now(end)) && Continues(end.worlds[end.seen], Now(end));
    RecognisedStable(c, slices, end.worlds[sys.seen], Now(end), a);
    RecognisedStable(c, slices, end.worlds[end.seen], Now(end), b);
  }

  // As long as the chain has one recognised deposit per stealth key, a record
  // never turns to another deposit either.
  lemma MirrorIsMonotone<P>(c: Curve<P>, slices: seq<Slice<P>>, sys: System, events: seq<Event>)
    requires SystemOk(c, slices, sys) && OneDepositPerKey(c, slices, Now(Run(c, slices, sys, events)))
    ensures AllMovedAhead(sys.records, Run(c, slices, sys, events).records)
  {
    var end := Run(c, slices, sys, events);
    MirrorMovesAhead(c, slices, sys, events);
    RunOk(c, slices, sys, events);
    RunFollows(c, slices, sys, events);
    forall i | 0 <= i < |sys.records| ensures MovedAhead(sys.records[i], end.records[i]) {
      assert AheadPerDeposit(sys.records[i], end.records[i]);
      if sys.records[i].onChainState.Some? {
        SameDeposit(c, slices, sys, end, sys.records[i], end.records[i]);
      }
    }
  }

  lemma {:induction false} RunConcat<P>(c: Curve<P>, slices: seq<Slice<P>>, sys: System, a: seq<Event>, b: seq<Event>)
    requires sys.worlds != []
    ensures Run(c, slices, sys, a + b) == Run(c, slices, Run(c, slices, sys, a), b)
  {
    if b == [] {
      assert a + b == a;
    } else {
      assert (a + b)[..|a + b| - 1] == a + b[..|b| - 1];
      RunConcat(c, slices, sys, a, b[..|b| - 1]);
    }
  }

  lemma RunOfOne<P>(c: Curve<P>, slices: seq<Slice<P>>, sys: System, e: Event)
    requires sys.worlds != []
    ensures Run(c, slices, sys, [e]) == Next(c, slices, sys, e)
  {
    hide Next;
    assert [e][..0] == [];
    assert Run(c, slices, sys, []) == sys;
  }

  lemma RunOfPass<P>(c: Curve<P>, slices: seq<Slice<P>>, sys: System, accounts: seq<Account>)
    requires sys.worlds != []
    ensures Run(c, slices, sys, [BeginPass(accounts)]) == AfterPass(c, slices, sys, accounts)
  {
    hide Run, AfterPass;
    RunOfOne(c, slices, sys, BeginPass(accounts));
  }

  lemma RunOfTwo<P>(c: Curve<P>, slices: seq<Slice<P>>, sys: System, e: Event, e2: Event)
    requires sys.worlds != []
    ensures Run(c, slices, sys, [e, e2]) == Next(c, slices, Next(c, slices, sys, e), e2)
  {
    hide Next;
    assert [e, e2][..1] == [e];
    RunOfOne(c, slices, sys, e);
  }
}
