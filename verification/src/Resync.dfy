// What one pass leaves in the records once all of it has been posted and none of
// it was lost.
module Resync {
  import opened Wrappers
  import opened Keys
  import opened Vault
  import opened Curve
  import opened Indexer
  import opened Store
  import opened Webhook
  import opened Mirror

  // -------------------------------------------------------------------------
  // Posting matches one by one

  // The match is posted to record i.
  ghost predicate Meets(records: seq<Record>, i: int, m: PaymentMatch) {
    0 <= i < |records| && FirstOf(records, m.stealthPubkey) == i
  }

  // A match that also decides the record's own state.
  predicate Counts(s: DepositState, decided: bool) {
    decided ==> s != Pending
  }

  // The last of the first n matches that is posted to record i, or -1.
  ghost function LastMet(records: seq<Record>, i: int, matches: seq<PaymentMatch>, n: nat, decided: bool): (k: int)
    requires n <= |matches|
    ensures -1 <= k < n
    ensures k >= 0 ==> Meets(records, i, matches[k]) && Counts(matches[k].state, decided)
    ensures forall k2 :: k < k2 < n ==> !(Meets(records, i, matches[k2]) && Counts(matches[k2].state, decided))
  {
    if n == 0 then -1
    else if Meets(records, i, matches[n - 1]) && Counts(matches[n - 1].state, decided) then n - 1
    else LastMet(records, i, matches, n - 1, decided)
  }

  ghost predicate Shows(r: Record, m: PaymentMatch) {
    r.onChainAddress == Some(m.depositPubkey) && r.onChainAmount == Some(JsNumber(m.amount))
    && r.onChainState == Some(m.state)
  }

  ghost predicate Extends(records: seq<Record>, later: seq<Record>) {
    |records| <= |later| && forall i :: 0 <= i < |records| ==> later[i].stealth == records[i].stealth
  }

  // What record i shows when the first n matches have been posted: the last one
  // posted to it.
  ghost predicate ViewAfter(records: seq<Record>, i: nat, matches: seq<PaymentMatch>, n: nat, r: Record)
    requires n <= |matches| && i < |records|
  {
    var k := LastMet(records, i, matches, n, false);
    if k < 0 then SameView(records[i], r) else Shows(r, matches[k])
  }

  ghost predicate Delivered(records: seq<Record>, matches: seq<PaymentMatch>, n: nat, later: seq<Record>)
    requires n <= |matches|
  {
    Extends(records, later) && forall i :: 0 <= i < |records| ==> ViewAfter(records, i, matches, n, later[i])
  }

  lemma FirstOfExtended(records: seq<Record>, later: seq<Record>, key: Key32)
    requires Extends(records, later)
    ensures var i, j := FirstOf(records, key), FirstOf(later, key);
            if i < |records| then j == i else j >= |records|
  {
    var i, j := FirstOf(records, key), FirstOf(later, key);
    assert i < |records| ==> later[i].stealth == key;
    assert j < |records| ==> records[j].stealth == key;
  }

  lemma DeliverNext(records: seq<Record>, matches: seq<PaymentMatch>, n: nat, later: seq<Record>, at: int)
    requires n < |matches| && Delivered(records, matches, n, later)
    ensures Delivered(records, matches, n + 1, ObserveMatch(later, matches[n], at))
  {
    var m := matches[n];
    var after := ObserveMatch(later, m, at);
    FirstOfExtended(records, later, m.stealthPubkey);
    forall i | 0 <= i < |records| ensures ViewAfter(records, i, matches, n + 1, after[i]) {
      assert ViewAfter(records, i, matches, n, later[i]);
      assert Meets(records, i, m) || after[i] == later[i];
    }
  }

  lemma GatewayKeepsDelivered(records: seq<Record>, matches: seq<PaymentMatch>, n: nat, later: seq<Record>,
                              after: seq<Record>)
    requires n <= |matches| && Delivered(records, matches, n, later) && |later| <= |after|
    requires forall i :: 0 <= i < |later| ==> SameObserved(later[i], after[i])
    ensures Delivered(records, matches, n, after)
  {
    forall i | 0 <= i < |records|
      ensures ViewAfter(records, i, matches, n, after[i]) && after[i].stealth == later[i].stealth
    {
      assert SameObserved(later[i], after[i]) && ViewAfter(records, i, matches, n, later[i]);
    }
  }

  // -------------------------------------------------------------------------
  // Posting amid other traffic

  predicate IsTraffic(e: Event) {
    !e.Lose? && !e.BeginPass?
  }

  predicate AllTraffic(events: seq<Event>) {
    forall i :: 0 <= i < |events| ==> IsTraffic(events[i])
  }

  // How much of the queue has been posted, and with what effect.
  ghost predicate Draining(sys: System, end: System) {
    && |end.queue| <= |sys.queue| && end.queue == sys.queue[|sys.queue| - |end.queue|..]
    && Delivered(sys.records, sys.queue, |sys.queue| - |end.queue|, end.records)
  }

  lemma PostDrains(sys: System, mid: System, end: System, at: int)
    requires Draining(sys, mid) && IsPost(mid, end, at)
    ensures Draining(sys, end)
  {
    var n := |sys.queue| - |mid.queue|;
    assert mid.queue[0] == sys.queue[n];
    DeliverNext(sys.records, sys.queue, n, mid.records, at);
  }

  lemma CallDrains(sys: System, mid: System, end: System)
    requires Draining(sys, mid) && IsGatewayCall(mid, end) && end.queue == mid.queue
    ensures Draining(sys, end)
  {
    hide Delivered, Meets;
    GatewayKeepsDelivered(sys.records, sys.queue, |sys.queue| - |mid.queue|, mid.records, end.records);
  }

  lemma DeliveryDrains(sys: System, mid: System, at: int)
    requires Draining(sys, mid)
    ensures Draining(sys, AfterDelivery(mid, at))
  {
    hide Draining, AfterDelivery;
    PostMove(mid, at);
    if AfterDelivery(mid, at) != mid {
      PostDrains(sys, mid, AfterDelivery(mid, at), at);
    }
  }

  lemma ChainDrains(sys: System, mid: System, step: Step)
    requires mid.worlds != [] && Draining(sys, mid)
    ensures Draining(sys, AfterChain(mid, step))
  {
    hide Advance;
  }

  lemma TrafficDrains<P>(c: Curve<P>, slices: seq<Slice<P>>, sys: System, mid: System, e: Event)
    requires mid.worlds != [] && Draining(sys, mid) && IsTraffic(e)
    ensures Draining(sys, Next(c, slices, mid, e))
  {
    hide Draining, AfterDelivery, AfterChain, DetectedRoute;
    if e.Deliver? {
      DeliveryDrains(sys, mid, e.at);
    } else if e.Chain? {
      ChainDrains(sys, mid, e.step);
    } else {
      GatewayMove(c, slices, mid, e);
      CallDrains(sys, mid, Next(c, slices, mid, e));
    }
  }

  lemma {:induction false} RunDrains<P>(c: Curve<P>, slices: seq<Slice<P>>, sys: System, events: seq<Event>)
    requires sys.worlds != [] && AllTraffic(events)
    ensures Draining(sys, Run(c, slices, sys, events))
  {
    if events == [] {
      assert forall i :: 0 <= i < |sys.records| ==> ViewAfter(sys.records, i, sys.queue, 0, sys.records[i]);
    } else {
      var before := events[..|events| - 1];
      RunDrains(c, slices, sys, before);
      TrafficDrains(c, slices, sys, Run(c, slices, sys, before), events[|events| - 1]);
    }
  }

  // -------------------------------------------------------------------------
  // The same in terms of the accounts that were listed

  // The account is a deposit the indexer recognises, of the key the gateway
  // finds record i for.
  ghost predicate Pays<P>(c: Curve<P>, slices: seq<Slice<P>>, account: Account, records: seq<Record>, i: int) {
    && account.data.Some?
    && Scan(c, slices, account.pubkey, account.data.value).Ok?
    && Scan(c, slices, account.pubkey, account.data.value).value.Some?
    && 0 <= i < |records| && FirstOf(records, account.data.value.stealth) == i
  }

  // The last of the first n listed accounts that pays record i, or -1.
  ghost function LastPaid<P>(c: Curve<P>, slices: seq<Slice<P>>, accounts: seq<Account>, n: nat, records: seq<Record>,
                             i: int, decided: bool)
    : (j: int)
    requires n <= |accounts|
    ensures -1 <= j < n
    ensures j >= 0 ==> Pays(c, slices, accounts[j], records, i) && Counts(accounts[j].data.value.state, decided)
    ensures forall j2 :: j < j2 < n ==>
              !(Pays(c, slices, accounts[j2], records, i) && Counts(accounts[j2].data.value.state, decided))
  {
    if n == 0 then -1
    else if Pays(c, slices, accounts[n - 1], records, i) && Counts(accounts[n - 1].data.value.state, decided) then n - 1
    else LastPaid(c, slices, accounts, n - 1, records, i, decided)
  }

  ghost predicate IsMatchOf(account: Account, m: PaymentMatch) {
    && account.data.Some? && m.depositPubkey == account.pubkey && m.stealthPubkey == account.data.value.stealth
    && m.amount == account.data.value.amount && m.state == account.data.value.state
  }

  lemma FoundPays<P>(c: Curve<P>, slices: seq<Slice<P>>, account: Account, m: PaymentMatch, records: seq<Record>, i: int)
    requires FoundAt(c, slices, account, m)
    ensures IsMatchOf(account, m) && (Pays(c, slices, account, records, i) <==> Meets(records, i, m))
  {
    var _ := MatchShape(c, slices, account.pubkey, account.data.value);
  }

  lemma MatchOfAccount<P>(c: Curve<P>, slices: seq<Slice<P>>, accounts: seq<Account>, matches: seq<PaymentMatch>,
                          at: seq<nat>, records: seq<Record>, i: int, k: nat)
    requires ListsMatches(c, slices, accounts, matches, at) && k < |matches|
    ensures at[k] < |accounts| && IsMatchOf(accounts[at[k]], matches[k])
    ensures Pays(c, slices, accounts[at[k]], records, i) <==> Meets(records, i, matches[k])
  {
    FoundPays(c, slices, accounts[at[k]], matches[k], records, i);
  }

  lemma AccountOfMatch<P>(c: Curve<P>, slices: seq<Slice<P>>, accounts: seq<Account>, matches: seq<PaymentMatch>,
                          at: seq<nat>, records: seq<Record>, i: int, j: nat)
    returns (k: nat)
    requires ListsMatches(c, slices, accounts, matches, at) && j < |accounts| && Pays(c, slices, accounts[j], records, i)
    ensures k < |matches| && at[k] == j && IsMatchOf(accounts[j], matches[k]) && Meets(records, i, matches[k])
  {
    assert FoundAt(c, slices, accounts[j], Scan(c, slices, accounts[j].pubkey, accounts[j].data.value).value.value);
    k :| 0 <= k < |at| && at[k] == j;
    FoundPays(c, slices, accounts[j], matches[k], records, i);
  }

  // The order of the matches is the order of the accounts.
  lemma LastMetIsLastPaid<P>(c: Curve<P>, slices: seq<Slice<P>>, accounts: seq<Account>, records: seq<Record>, i: int,
                             decided: bool)
    requires ScanPass(c, slices, accounts).Ok?
    ensures var matches := ScanPass(c, slices, accounts).value;
            var k := LastMet(records, i, matches, |matches|, decided);
            var j := LastPaid(c, slices, accounts, |accounts|, records, i, decided);
            (k < 0 <==> j < 0) && (k >= 0 ==> IsMatchOf(accounts[j], matches[k]))
  {
    hide Pays, Meets, LastMet, LastPaid, ScanPass, FoundAt;
    var matches := ScanPass(c, slices, accounts).value;
    var at := PassRefines(c, slices, accounts);
    var k := LastMet(records, i, matches, |matches|, decided);
    var j := LastPaid(c, slices, accounts, |accounts|, records, i, decided);
    if k >= 0 {
      MatchOfAccount(c, slices, accounts, matches, at, records, i, k);
      assert at[k] <= j;
    }
    if j >= 0 {
      var k2 := AccountOfMatch(c, slices, accounts, matches, at, records, i, j);
      assert k2 <= k;
    }
  }

  // The record shows the deposit in this account.
  ghost predicate ShowsAccount(r: Record, account: Account)
    requires account.data.Some?
  {
    var d := account.data.value;
    && r.onChainAddress == Some(account.pubkey) && r.onChainState == Some(d.state)
    && r.onChainAmount == Some(JsNumber(d.amount))
    && (d.amount < TWO_53 ==> r.onChainAmount == Some(d.amount))
  }

  // Record i shows the last listed deposit that pays it, and what it showed
  // before if there is none.
  ghost predicate ShowsLast<P>(c: Curve<P>, slices: seq<Slice<P>>, accounts: seq<Account>, records: seq<Record>, i: nat,
                               r: Record)
    requires i < |records|
  {
    var j := LastPaid(c, slices, accounts, |accounts|, records, i, false);
    if j < 0 then SameView(records[i], r) else ShowsAccount(r, accounts[j])
  }

  lemma DeliveredShowsLast<P>(c: Curve<P>, slices: seq<Slice<P>>, accounts: seq<Account>, records: seq<Record>,
                              later: seq<Record>, i: nat)
    requires ScanPass(c, slices, accounts).Ok? && i < |records|
    requires var matches := ScanPass(c, slices, accounts).value; Delivered(records, matches, |matches|, later)
    ensures ShowsLast(c, slices, accounts, records, i, later[i])
  {
    var matches := ScanPass(c, slices, accounts).value;
    assert ViewAfter(records, i, matches, |matches|, later[i]);
    LastMetIsLastPaid(c, slices, accounts, records, i, false);
    var j := LastPaid(c, slices, accounts, |accounts|, records, i, false);
    if j >= 0 {
      JsNumberExact(accounts[j].data.value.amount);
    }
  }

  lemma PassFillsQueue<P>(c: Curve<P>, slices: seq<Slice<P>>, sys: System, accounts: seq<Account>)
    requires sys.worlds != [] && sys.queue == [] && Lists(accounts, Now(sys)) && ScanPass(c, slices, accounts).Ok?
    ensures AfterPass(c, slices, sys, accounts)
            == sys.(seen := |sys.worlds| - 1, queue := ScanPass(c, slices, accounts).value)
  {
  }

  // However the chain moves on and the gateway is called while a pass is being
  // posted: once all of it is, and none was lost, every record of that time shows
  // the last listed deposit that pays it.
  lemma ResynchronisedAmidTraffic<P>(c: Curve<P>, slices: seq<Slice<P>>, sys: System, accounts: seq<Account>,
                                     events: seq<Event>, i: nat)
    requires sys.worlds != [] && sys.queue == []
    requires Lists(accounts, Now(sys)) && ScanPass(c, slices, accounts).Ok?
    requires AllTraffic(events) && Run(c, slices, AfterPass(c, slices, sys, accounts), events).queue == []
    requires i < |sys.records|
    ensures var end := Run(c, slices, AfterPass(c, slices, sys, accounts), events);
            i < |end.records| && ShowsLast(c, slices, accounts, sys.records, i, end.records[i])
  {
    var begun := AfterPass(c, slices, sys, accounts);
    PassFillsQueue(c, slices, sys, accounts);
    RunDrains(c, slices, begun, events);
    DeliveredShowsLast(c, slices, accounts, sys.records, Run(c, slices, begun, events).records, i);
  }

  // -------------------------------------------------------------------------
  // An undisturbed pass: the whole record

  predicate AllDeliveries(events: seq<Event>) {
    forall i :: 0 <= i < |events| ==> events[i].Deliver?
  }

  // Record i with the on-chain fields of r and the state of the last match that
  // decides it.
  ghost predicate OwnAfter(records: seq<Record>, i: nat, matches: seq<PaymentMatch>, n: nat, r: Record)
    requires n <= |matches| && i < |records|
  {
    var k := LastMet(records, i, matches, n, true);
    && r == records[i].(onChainAddress := r.onChainAddress, onChainAmount := r.onChainAmount,
                        onChainState := r.onChainState, onChainObservedAt := r.onChainObservedAt,
                        state := if k < 0 then records[i].state else matches[k].state)
    && (LastMet(records, i, matches, n, false) >= 0 ==> r.onChainObservedAt.Some?)
  }

  ghost predicate OwnDelivered(records: seq<Record>, matches: seq<PaymentMatch>, n: nat, later: seq<Record>)
    requires n <= |matches|
  {
    |later| == |records| && forall i :: 0 <= i < |records| ==> OwnAfter(records, i, matches, n, later[i])
  }

  lemma OwnDeliverNext(records: seq<Record>, matches: seq<PaymentMatch>, n: nat, later: seq<Record>, at: int)
    requires n < |matches| && OwnDelivered(records, matches, n, later)
    ensures OwnDelivered(records, matches, n + 1, ObserveMatch(later, matches[n], at))
  {
    var m := matches[n];
    var after := ObserveMatch(later, m, at);
    assert Extends(records, later) by {
      assert forall i :: 0 <= i < |records| ==> OwnAfter(records, i, matches, n, later[i]);
    }
    FirstOfExtended(records, later, m.stealthPubkey);
    forall i | 0 <= i < |records| ensures OwnAfter(records, i, matches, n + 1, after[i]) {
      assert OwnAfter(records, i, matches, n, later[i]);
      assert Meets(records, i, m) || after[i] == later[i];
    }
  }

  // The first n matches of the queue have been posted and nothing else happened.
  ghost predicate Posted(sys: System, end: System, n: nat)
    requires n <= |sys.queue|
  {
    end == sys.(records := end.records, queue := sys.queue[n..]) && OwnDelivered(sys.records, sys.queue, n, end.records)
  }

  lemma NothingPosted(sys: System)
    ensures Posted(sys, sys, 0)
  {
    assert sys.queue[0..] == sys.queue;
    assert forall i :: 0 <= i < |sys.records| ==> OwnAfter(sys.records, i, sys.queue, 0, sys.records[i]);
  }

  lemma PostOneMore(sys: System, mid: System, end: System, n: nat, at: int)
    requires n < |sys.queue| && Posted(sys, mid, n) && IsPost(mid, end, at)
    ensures Posted(sys, end, n + 1)
  {
    assert mid.queue[0] == sys.queue[n] && mid.queue[1..] == sys.queue[n + 1..];
    OwnDeliverNext(sys.records, sys.queue, n, mid.records, at);
  }

  function Least(a: nat, b: nat): nat {
    if a < b then a else b
  }

  lemma DeliveryPosts(sys: System, mid: System, n: nat, at: int)
    requires Posted(sys, mid, Least(n, |sys.queue|))
    ensures Posted(sys, AfterDelivery(mid, at), Least(n + 1, |sys.queue|))
  {
    PostMove(mid, at);
    if n < |sys.queue| {
      PostOneMore(sys, mid, AfterDelivery(mid, at), n, at);
    }
  }

  // Deliveries alone: each takes one match off the queue while there is one.
  lemma {:induction false} DeliveriesRun<P>(c: Curve<P>, slices: seq<Slice<P>>, sys: System, events: seq<Event>)
    requires sys.worlds != [] && AllDeliveries(events)
    ensures Posted(sys, Run(c, slices, sys, events), Least(|events|, |sys.queue|))
  {
    if events == [] {
      NothingPosted(sys);
    } else {
      var before := events[..|events| - 1];
      DeliveriesRun(c, slices, sys, before);
      DeliveryPosts(sys, Run(c, slices, sys, before), |before|, events[|events| - 1].at);
    }
  }

  // Record i brought up to date with a listing: it shows the last deposit that
  // pays it, its own state is that of the last such deposit that is not pending,
  // and nothing else about it changes.
  ghost predicate UpToDate<P>(c: Curve<P>, slices: seq<Slice<P>>, accounts: seq<Account>, records: seq<Record>, i: nat,
                              after: Record)
    requires i < |records|
  {
    var r := records[i];
    var shown := LastPaid(c, slices, accounts, |accounts|, records, i, false);
    var decider := LastPaid(c, slices, accounts, |accounts|, records, i, true);
    && ShowsLast(c, slices, accounts, records, i, after)
    && after == r.(onChainAddress := after.onChainAddress, onChainAmount := after.onChainAmount,
                   onChainState := after.onChainState, onChainObservedAt := after.onChainObservedAt,
                   state := if decider < 0 then r.state else accounts[decider].data.value.state)
    && (shown < 0 ==> after == r)
    && (shown >= 0 ==> after.onChainObservedAt.Some?)
  }

  ghost predicate Synced<P>(c: Curve<P>, slices: seq<Slice<P>>, accounts: seq<Account>, records: seq<Record>,
                            after: seq<Record>)
  {
    |after| == |records| && forall i :: 0 <= i < |records| ==> UpToDate(c, slices, accounts, records, i, after[i])
  }

  lemma DeliveredUpToDate<P>(c: Curve<P>, slices: seq<Slice<P>>, accounts: seq<Account>, records: seq<Record>, i: nat,
                             after: Record)
    requires ScanPass(c, slices, accounts).Ok? && i < |records|
    requires var matches := ScanPass(c, slices, accounts).value; OwnAfter(records, i, matches, |matches|, after)
    requires ShowsLast(c, slices, accounts, records, i, after)
    ensures UpToDate(c, slices, accounts, records, i, after)
  {
    LastMetIsLastPaid(c, slices, accounts, records, i, false);
    LastMetIsLastPaid(c, slices, accounts, records, i, true);
  }

  lemma PostedAllSyncs<P>(c: Curve<P>, slices: seq<Slice<P>>, accounts: seq<Account>, begun: System, end: System)
    requires ScanPass(c, slices, accounts) == Ok(begun.queue)
    requires Posted(begun, end, |begun.queue|) && Delivered(begun.records, begun.queue, |begun.queue|, end.records)
    ensures Synced(c, slices, accounts, begun.records, end.records)
  {
    forall i | 0 <= i < |begun.records| ensures UpToDate(c, slices, accounts, begun.records, i, end.records[i]) {
      DeliveredShowsLast(c, slices, accounts, begun.records, end.records, i);
      DeliveredUpToDate(c, slices, accounts, begun.records, i, end.records[i]);
    }
  }

  // A pass begun with nothing left to post, and posted undisturbed, brings every
  // record up to date with its listing.
  lemma Resynchronised<P>(c: Curve<P>, slices: seq<Slice<P>>, sys: System, accounts: seq<Account>, events: seq<Event>)
    requires sys.worlds != [] && sys.queue == []
    requires Lists(accounts, Now(sys)) && ScanPass(c, slices, accounts).Ok?
    requires AllDeliveries(events) && |events| >= |ScanPass(c, slices, accounts).value|
    ensures var end := Run(c, slices, AfterPass(c, slices, sys, accounts), events);
            && end.queue == [] && end.worlds == sys.worlds
            && Synced(c, slices, accounts, sys.records, end.records)
  {
    hide Run, Next, ScanPass, Synced, Delivered;
    var begun := AfterPass(c, slices, sys, accounts);
    PassFillsQueue(c, slices, sys, accounts);
    DeliveriesRun(c, slices, begun, events);
    RunDrains(c, slices, begun, events);
    PostedAllSyncs(c, slices, accounts, begun, Run(c, slices, begun, events));
  }

  // -------------------------------------------------------------------------
  // A pass as a stretch of a run

  function PassAndPosts(accounts: seq<Account>, posts: seq<Event>): seq<Event> {
    [BeginPass(accounts)] + posts
  }

  // From a moment with nothing left to post: a pass over a listing of the present
  // chain, and deliveries until nothing is left again.
  ghost predicate IsFullPass<P>(c: Curve<P>, slices: seq<Slice<P>>, sys: System, accounts: seq<Account>,
                                posts: seq<Event>)
  {
    && sys.worlds != [] && sys.queue == [] && Lists(accounts, Now(sys)) && AllDeliveries(posts)
    && Run(c, slices, sys, PassAndPosts(accounts, posts)).queue == []
  }

  lemma PassRun<P>(c: Curve<P>, slices: seq<Slice<P>>, sys: System, accounts: seq<Account>, posts: seq<Event>)
    requires sys.worlds != []
    ensures Run(c, slices, sys, PassAndPosts(accounts, posts))
            == Run(c, slices, AfterPass(c, slices, sys, accounts), posts)
  {
    hide Run, Next, AfterPass;
    RunOfPass(c, slices, sys, accounts);
    RunConcat(c, slices, sys, [BeginPass(accounts)], posts);
  }

  lemma FullPassSyncs<P>(c: Curve<P>, slices: seq<Slice<P>>, sys: System, accounts: seq<Account>, posts: seq<Event>)
    requires IsFullPass(c, slices, sys, accounts, posts) && ScanPass(c, slices, accounts).Ok?
    ensures var end := Run(c, slices, sys, PassAndPosts(accounts, posts));
            end.worlds == sys.worlds && Synced(c, slices, accounts, sys.records, end.records)
  {
    hide Run, Next, ScanPass, Synced, PassAndPosts;
    PassRun(c, slices, sys, accounts, posts);
    PassFillsQueue(c, slices, sys, accounts);
    DeliveriesRun(c, slices, AfterPass(c, slices, sys, accounts), posts);
    Resynchronised(c, slices, sys, accounts, posts);
  }

  // A pass that cannot be scanned changes nothing.
  lemma FailedPass<P>(c: Curve<P>, slices: seq<Slice<P>>, sys: System, accounts: seq<Account>, posts: seq<Event>)
    requires sys.worlds != [] && sys.queue == [] && ScanPass(c, slices, accounts).Err? && AllDeliveries(posts)
    ensures Run(c, slices, sys, PassAndPosts(accounts, posts)) == sys
  {
    hide Run, Next, ScanPass, PassAndPosts;
    PassRun(c, slices, sys, accounts, posts);
    assert AfterPass(c, slices, sys, accounts) == sys;
    IdleDeliveries(c, slices, sys, posts);
  }

  lemma {:induction false} IdleDeliveries<P>(c: Curve<P>, slices: seq<Slice<P>>, sys: System, posts: seq<Event>)
    requires sys.worlds != [] && sys.queue == [] && AllDeliveries(posts)
    ensures Run(c, slices, sys, posts) == sys
  {
    hide DetectedRoute;
    if posts != [] {
      IdleDeliveries(c, slices, sys, posts[..|posts| - 1]);
      assert posts[|posts| - 1].Deliver?;
    }
  }

  // -------------------------------------------------------------------------
  // Again, in the same order

  lemma SamePays<P>(c: Curve<P>, slices: seq<Slice<P>>, account: Account, records: seq<Record>, later: seq<Record>,
                    i: int)
    requires Extends(records, later) && |later| == |records|
    ensures Pays(c, slices, account, records, i) <==> Pays(c, slices, account, later, i)
  {
    if account.data.Some? {
      FirstOfExtended(records, later, account.data.value.stealth);
    }
  }

  lemma {:induction false} SameLastPaid<P>(c: Curve<P>, slices: seq<Slice<P>>, accounts: seq<Account>, n: nat,
                                           records: seq<Record>, later: seq<Record>, i: int, decided: bool)
    requires n <= |accounts| && Extends(records, later) && |later| == |records|
    ensures LastPaid(c, slices, accounts, n, records, i, decided) == LastPaid(c, slices, accounts, n, later, i, decided)
  {
    if n != 0 {
      SamePays(c, slices, accounts[n - 1], records, later, i);
      SameLastPaid(c, slices, accounts, n - 1, records, later, i, decided);
    }
  }

  lemma SyncedExtends<P>(c: Curve<P>, slices: seq<Slice<P>>, accounts: seq<Account>, records: seq<Record>,
                         after: seq<Record>)
    requires Synced(c, slices, accounts, records, after)
    ensures Extends(records, after)
  {
    forall i | 0 <= i < |records| ensures after[i].stealth == records[i].stealth {
      assert UpToDate(c, slices, accounts, records, i, after[i]);
    }
  }

  predicate TimesOnly(r: Record, r2: Record) {
    r2 == r.(onChainObservedAt := r2.onChainObservedAt)
  }

  // Posting a listing once more, in the same order, changes observation times
  // only, however many deposits share a key.
  lemma ResyncChangesTimesOnly<P>(c: Curve<P>, slices: seq<Slice<P>>, accounts: seq<Account>, records: seq<Record>,
                                  once: seq<Record>, twice: seq<Record>, i: nat)
    requires Synced(c, slices, accounts, records, once) && Synced(c, slices, accounts, once, twice) && i < |records|
    ensures TimesOnly(once[i], twice[i])
  {
    SyncedExtends(c, slices, accounts, records, once);
    SameLastPaid(c, slices, accounts, |accounts|, records, once, i, false);
    SameLastPaid(c, slices, accounts, |accounts|, records, once, i, true);
    assert UpToDate(c, slices, accounts, records, i, once[i]) && UpToDate(c, slices, accounts, once, i, twice[i]);
  }

  // The same for two passes of a run over one listing, whether it can be scanned
  // or not.
  lemma RepeatedPassChangesTimesOnly<P>(c: Curve<P>, slices: seq<Slice<P>>, sys: System, accounts: seq<Account>,
                                        posts: seq<Event>, posts2: seq<Event>, i: nat)
    requires IsFullPass(c, slices, sys, accounts, posts) && i < |sys.records|
    requires IsFullPass(c, slices, Run(c, slices, sys, PassAndPosts(accounts, posts)), accounts, posts2)
    ensures var once := Run(c, slices, sys, PassAndPosts(accounts, posts));
            var twice := Run(c, slices, once, PassAndPosts(accounts, posts2));
            && |twice.records| == |once.records| == |sys.records|
            && TimesOnly(once.records[i], twice.records[i])
  {
    hide Run, Next, ScanPass, PassAndPosts, UpToDate;
    var once := Run(c, slices, sys, PassAndPosts(accounts, posts));
    if ScanPass(c, slices, accounts).Ok? {
      FullPassSyncs(c, slices, sys, accounts, posts);
      FullPassSyncs(c, slices, once, accounts, posts2);
      var twice := Run(c, slices, once, PassAndPosts(accounts, posts2));
      ResyncChangesTimesOnly(c, slices, accounts, sys.records, once.records, twice.records, i);
    } else {
      FailedPass(c, slices, sys, accounts, posts);
      FailedPass(c, slices, once, accounts, posts2);
    }
  }

  // -------------------------------------------------------------------------
  // One deposit per key

  // Record i is the one the gateway finds for its key, and the deposit at `a` is
  // recognised and has that key.
  ghost predicate Paid<P>(c: Curve<P>, slices: seq<Slice<P>>, w: World, records: seq<Record>, i: int, a: Address) {
    && 0 <= i < |records| && FirstOf(records, records[i].stealth) == i
    && Recognised(c, slices, w, a) && w.deposits[a].stealth == records[i].stealth
  }

  lemma PaysIsPaid<P>(c: Curve<P>, slices: seq<Slice<P>>, w: World, accounts: seq<Account>, records: seq<Record>, i: int,
                      j: nat)
    requires Lists(accounts, w) && j < |accounts|
    ensures Pays(c, slices, accounts[j], records, i)
            <==> accounts[j].data.Some? && Paid(c, slices, w, records, i, accounts[j].pubkey)
  {
  }

  // The order of the listing does not matter: the deposit that pays a record is
  // the last one that does.
  lemma OnlyOnePays<P>(c: Curve<P>, slices: seq<Slice<P>>, w: World, accounts: seq<Account>, records: seq<Record>,
                       i: int, a: Address, decided: bool)
    requires Lists(accounts, w) && OneDepositPerKey(c, slices, w) && Paid(c, slices, w, records, i, a)
    ensures var j := LastPaid(c, slices, accounts, |accounts|, records, i, decided);
            if Counts(w.deposits[a].state, decided) then j >= 0 && accounts[j] == Account(a, Some(w.deposits[a]))
            else j < 0
  {
    var j := LastPaid(c, slices, accounts, |accounts|, records, i, decided);
    var j2 :| 0 <= j2 < |accounts| && accounts[j2] == Account(a, Some(w.deposits[a]));
    PaysIsPaid(c, slices, w, accounts, records, i, j2);
    if j >= 0 {
      PaysIsPaid(c, slices, w, accounts, records, i, j);
      assert accounts[j].pubkey == a;
    }
  }

  // `after` is `before` brought up to date with the deposit at `a`.
  ghost predicate UpToDateWith(w: World, a: Address, before: Record, after: Record)
    requires a in w.deposits
  {
    var d := w.deposits[a];
    && after.onChainObservedAt.Some?
    && after == before.(onChainAddress := Some(a),
                        onChainAmount := Some(JsNumber(d.amount)),
                        onChainState := Some(d.state),
                        onChainObservedAt := after.onChainObservedAt,
                        state := if d.state == Pending then before.state else d.state)
    && (d.amount < TWO_53 ==> after.onChainAmount == Some(d.amount))
  }

  lemma OneDepositResync<P>(c: Curve<P>, slices: seq<Slice<P>>, w: World, accounts: seq<Account>, records: seq<Record>,
                            after: seq<Record>, i: nat)
    requires Lists(accounts, w) && OneDepositPerKey(c, slices, w)
    requires Synced(c, slices, accounts, records, after) && i < |records|
    ensures forall a :: Paid(c, slices, w, records, i, a) ==> UpToDateWith(w, a, records[i], after[i])
    ensures (forall a :: !Paid(c, slices, w, records, i, a)) ==> after[i] == records[i]
  {
    assert UpToDate(c, slices, accounts, records, i, after[i]);
    forall a | Paid(c, slices, w, records, i, a) ensures UpToDateWith(w, a, records[i], after[i]) {
      OnlyOnePays(c, slices, w, accounts, records, i, a, false);
      OnlyOnePays(c, slices, w, accounts, records, i, a, true);
    }
    var j := LastPaid(c, slices, accounts, |accounts|, records, i, false);
    if j >= 0 {
      PaysIsPaid(c, slices, w, accounts, records, i, j);
    }
  }

  lemma OneDepositTimesOnly<P>(c: Curve<P>, slices: seq<Slice<P>>, w: World, accounts: seq<Account>,
                               accounts2: seq<Account>, records: seq<Record>, once: seq<Record>, twice: seq<Record>,
                               i: nat)
    requires Lists(accounts, w) && Lists(accounts2, w) && OneDepositPerKey(c, slices, w)
    requires Synced(c, slices, accounts, records, once) && Synced(c, slices, accounts2, once, twice) && i < |records|
    ensures TimesOnly(once[i], twice[i])
  {
    SyncedExtends(c, slices, accounts, records, once);
    FirstOfExtended(records, once, records[i].stealth);
    OneDepositResync(c, slices, w, accounts, records, once, i);
    OneDepositResync(c, slices, w, accounts2, once, twice, i);
    if a :| Paid(c, slices, w, once, i, a) {
      assert Paid(c, slices, w, records, i, a);
      assert UpToDateWith(w, a, records[i], once[i]) && UpToDateWith(w, a, once[i], twice[i]);
    }
  }
}
