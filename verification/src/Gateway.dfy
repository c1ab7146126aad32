// What the gateway's records come to over a run: who created each of them and what
// set its own state.
module Gateway {
  import opened Wrappers
  import opened Keys
  import opened Radix
  import opened KeyText
  import opened Vault
  import opened Curve
  import opened Stealth
  import opened Indexer
  import opened Store
  import opened Webhook
  import opened Mirror

  // -------------------------------------------------------------------------
  // Ids

  // The number a decimal text stands for.
  function ReadDecimal(s: string): int {
    if s == "" then 0 else 10 * ReadDecimal(s[..|s| - 1]) + (s[|s| - 1] as int - '0' as int)
  }

  lemma {:induction false} ReadsBack(ds: seq<nat>)
    requires Radix.Valid(ds, 10)
    ensures ReadDecimal(DecimalText(ds)) == Value(ds, 10)
  {
    if ds != [] {
      var s := DecimalText(ds);
      assert s[..|s| - 1] == DecimalText(ds[..|ds| - 1]);
      ReadsBack(ds[..|ds| - 1]);
    }
  }

  predicate IsIdOf(id: string, n: int) {
    "dep_" <= id && ReadDecimal(id[4..]) == n
  }

  lemma IdText(n: nat)
    ensures IsIdOf(DepositId(n), n)
  {
    ReadsBack(Digits(n, 10));
    ValueOfDigits(n, 10);
    assert DepositId(n)[4..] == DecimalText(Digits(n, 10));
  }

  ghost predicate Numbered(records: seq<Record>) {
    forall i :: 0 <= i < |records| ==> records[i].id == DepositId(i + 1)
  }

  lemma IndexOfNumber(records: seq<Record>, i: nat)
    requires Numbered(records) && i < |records|
    ensures IndexOfId(records, records[i].id) == i
  {
    hide DepositId, IndexOfId;
    var j := IndexOfId(records, records[i].id);
    assert j <= i && records[j].id == DepositId(j + 1);
    DepositIdInjective(i + 1, j + 1);
  }

  // -------------------------------------------------------------------------
  // The two calls

  predicate Owns(institutionId: string, id: string, r: Record) {
    r.institutionId == institutionId && r.id == id
  }

  predicate RefundDue(r: Record, now: int) {
    r.state == Rejected || r.state == Expired || (r.state == Pending && r.expiresAt <= now)
  }

  // A call of the owner releases the record exactly if it is approved and changes
  // nothing else; any other call is answered as if there were no such record.
  lemma ReleaseCall(records: seq<Record>, institutionId: string, id: string)
    requires Numbered(records)
    ensures var (after, answer) := ReleaseRoute(records, institutionId, id);
            && ((forall i :: 0 <= i < |records| ==> !Owns(institutionId, id, records[i])) ==>
                  after == records && answer == NotFound)
            && forall i :: 0 <= i < |records| && Owns(institutionId, id, records[i]) ==>
                 if records[i].state == Approved
                 then after == records[i := records[i].(state := Released)] && answer == Done(after[i])
                 else after == records && answer == Conflict(records[i].state)
  {
    hide IndexOfId, DepositId;
    forall i | 0 <= i < |records| ensures IndexOfId(records, records[i].id) == i {
      IndexOfNumber(records, i);
    }
  }

  // A call of the owner refunds the record exactly if it is rejected, expired, or
  // pending at or after its expiry.
  lemma RefundCall(records: seq<Record>, institutionId: string, id: string, now: int)
    requires Numbered(records)
    ensures var (after, answer) := RefundRoute(records, institutionId, id, now);
            && ((forall i :: 0 <= i < |records| ==> !Owns(institutionId, id, records[i])) ==>
                  after == records && answer == NotFound)
            && forall i :: 0 <= i < |records| && Owns(institutionId, id, records[i]) ==>
                 if RefundDue(records[i], now)
                 then after == records[i := records[i].(state := Refunded)] && answer == Done(after[i])
                 else after == records && answer == Conflict(records[i].state)
  {
    hide IndexOfId, DepositId;
    forall i | 0 <= i < |records| ensures IndexOfId(records, records[i].id) == i {
      IndexOfNumber(records, i);
    }
  }

  // -------------------------------------------------------------------------
  // One event

  // The delivery at hand is of record i: the first with the key of the match.
  ghost predicate Delivers(sys: System, e: Event, i: nat) {
    && e.Deliver? && sys.queue != [] && i < |sys.records|
    && sys.records[i].stealth == sys.queue[0].stealthPubkey
    && forall j :: 0 <= j < i ==> sys.records[j].stealth != sys.queue[0].stealthPubkey
  }

  // The record as it shows the match.
  predicate ShowsMatch(r: Record, r2: Record, m: PaymentMatch, at: int) {
    && r2.onChainAddress == Some(m.depositPubkey) && r2.onChainAmount == Some(JsNumber(m.amount))
    && r2.onChainState == Some(m.state) && r2.onChainObservedAt == Some(at)
    && (if m.state == Pending then r2.state == r.state else r2.state == m.state)
  }

  ghost predicate Releases(sys: System, e: Event, i: nat) {
    && e.GatewayRelease? && i < |sys.records| && Owns(e.institutionId, e.id, sys.records[i])
    && sys.records[i].state == Approved
  }

  ghost predicate Refunds(sys: System, e: Event, i: nat) {
    && e.GatewayRefund? && i < |sys.records| && Owns(e.institutionId, e.id, sys.records[i])
    && RefundDue(sys.records[i], e.at)
  }

  // The fields no event touches.
  predicate SameOrder(r: Record, r2: Record) {
    && r2.id == r.id && r2.institutionId == r.institutionId && r2.stealth == r.stealth
    && r2.createdAt == r.createdAt && r2.expiresAt == r.expiresAt
  }

  // What an event makes of record i.
  ghost predicate RecordStep(sys: System, e: Event, i: nat, r2: Record)
    requires i < |sys.records|
  {
    var r := sys.records[i];
    && SameOrder(r, r2)
    && (if Delivers(sys, e, i) then ShowsMatch(r, r2, sys.queue[0], e.at)
        else if Releases(sys, e, i) then r2 == r.(state := Released)
        else if Refunds(sys, e, i) then r2 == r.(state := Refunded)
        else r2 == r)
  }

  predicate AsCreated(r: Record, e: Event) {
    && e.CreateDeposit?
    && r.institutionId == e.institutionId && r.stealth == e.stealth
    && r.createdAt == e.at && r.expiresAt == e.expiresAt
  }

  predicate Blank(r: Record) {
    && r.state == Pending && r.onChainAddress == None && r.onChainAmount == None && r.onChainState == None
    && r.onChainObservedAt == None
  }

  lemma DeliveryStep(sys: System, at: int)
    ensures |AfterDelivery(sys, at).records| == |sys.records|
    ensures forall i :: 0 <= i < |sys.records| ==>
              RecordStep(sys, Deliver(at), i, AfterDelivery(sys, at).records[i])
  {
    PostMove(sys, at);
  }

  lemma CallStep<P>(c: Curve<P>, slices: seq<Slice<P>>, sys: System, e: Event)
    requires sys.worlds != [] && Numbered(sys.records) && (e.GatewayRelease? || e.GatewayRefund?)
    ensures var records2 := Next(c, slices, sys, e).records;
            |records2| == |sys.records|
            && forall i :: 0 <= i < |sys.records| ==> RecordStep(sys, e, i, records2[i])
  {
    hide DepositId, IndexOfId, ReleaseRoute, RefundRoute;
    if e.GatewayRelease? {
      ReleaseCall(sys.records, e.institutionId, e.id);
    } else {
      RefundCall(sys.records, e.institutionId, e.id, e.at);
    }
  }

  // The exact effect of every event on every record, from any state whose ids are
  // the gateway's: a delivery shows its match in the first record of its key, a
  // release or refund call sets the state of the owner's record if it may, a
  // creation adds a blank record under the next id, and nothing else changes.
  lemma EventStep<P>(c: Curve<P>, slices: seq<Slice<P>>, sys: System, e: Event)
    requires sys.worlds != [] && Numbered(sys.records)
    ensures var records2 := Next(c, slices, sys, e).records;
            && Numbered(records2)
            && |records2| == |sys.records| + (if e.CreateDeposit? then 1 else 0)
            && (forall i :: 0 <= i < |sys.records| ==> RecordStep(sys, e, i, records2[i]))
            && (e.CreateDeposit? ==> AsCreated(records2[|sys.records|], e) && Blank(records2[|sys.records|]))
  {
    hide DepositId, RefundRoute, ReleaseRoute, AfterDelivery, AfterPass;
    match e
    case Deliver(at) => DeliveryStep(sys, at);
    case GatewayRelease(_, _) => CallStep(c, slices, sys, e);
    case GatewayRefund(_, _, _) => CallStep(c, slices, sys, e);
    case BeginPass(accounts) => PassMove(c, slices, sys, accounts);
    case _ =>
  }

  // -------------------------------------------------------------------------
  // Whole runs

  lemma {:induction false} RunNumbered<P>(c: Curve<P>, slices: seq<Slice<P>>, sys: System, events: seq<Event>)
    requires sys.worlds != [] && Numbered(sys.records)
    ensures Numbered(Run(c, slices, sys, events).records)
  {
    hide Next;
    if events != [] {
      RunNumbered(c, slices, sys, events[..|events| - 1]);
      EventStep(c, slices, Run(c, slices, sys, events[..|events| - 1]), events[|events| - 1]);
    }
  }

  function Creations(events: seq<Event>): seq<Event> {
    if events == [] then []
    else
      Creations(events[..|events| - 1])
      + (if events[|events| - 1].CreateDeposit? then [events[|events| - 1]] else [])
  }

  // In every run the gateway's records are its CreateDeposit calls in order: record
  // i bears number i + 1, the caller's institution, key and expiry, and the clock of
  // that call, whatever happens to it later.
  lemma {:induction false} RecordOrigin<P>(c: Curve<P>, slices: seq<Slice<P>>, w: World, events: seq<Event>)
    ensures var records, calls := Run(c, slices, Start(w), events).records, Creations(events);
            && |records| == |calls|
            && forall i :: 0 <= i < |records| ==>
                 AsCreated(records[i], calls[i]) && IsIdOf(records[i].id, i + 1)
  {
    hide Next, DepositId, IsIdOf;
    RunNumbered(c, slices, Start(w), events);
    forall i | 0 <= i < |Run(c, slices, Start(w), events).records|
      ensures IsIdOf(Run(c, slices, Start(w), events).records[i].id, i + 1)
    {
      IdText(i + 1);
    }
    if events != [] {
      var init, last := events[..|events| - 1], events[|events| - 1];
      RecordOrigin(c, slices, w, init);
      RunNumbered(c, slices, Start(w), init);
      EventStep(c, slices, Run(c, slices, Start(w), init), last);
      OrdersKept(c, slices, Run(c, slices, Start(w), init), last, Creations(init));
    }
  }

  lemma OrdersKept<P>(c: Curve<P>, slices: seq<Slice<P>>, sys: System, e: Event, calls: seq<Event>)
    requires sys.worlds != [] && Numbered(sys.records) && |calls| == |sys.records|
    requires forall i :: 0 <= i < |calls| ==> AsCreated(sys.records[i], calls[i])
    ensures forall i :: 0 <= i < |calls| ==>
              i < |Next(c, slices, sys, e).records| && AsCreated(Next(c, slices, sys, e).records[i], calls[i])
  {
    hide Next, DepositId;
    EventStep(c, slices, sys, e);
    forall i | 0 <= i < |calls| ensures AsCreated(Next(c, slices, sys, e).records[i], calls[i]) {
      assert AsCreated(sys.records[i], calls[i]);
      assert RecordStep(sys, e, i, Next(c, slices, sys, e).records[i]);
    }
  }

  // The state an event sets record i to, if any.
  ghost function SetTo(sys: System, e: Event, i: nat): Option<DepositState> {
    if Delivers(sys, e, i) && sys.queue[0].state != Pending then Some(sys.queue[0].state)
    else if Releases(sys, e, i) then Some(Released)
    else if Refunds(sys, e, i) then Some(Refunded)
    else None
  }

  ghost function LastSet<P>(c: Curve<P>, slices: seq<Slice<P>>, sys: System, events: seq<Event>, i: nat)
    : Option<DepositState>
    requires sys.worlds != []
  {
    if events == [] then None
    else
      var init := events[..|events| - 1];
      match SetTo(Run(c, slices, sys, init), events[|events| - 1], i)
      case Some(state) => Some(state)
      case None => LastSet(c, slices, sys, init, i)
  }

  lemma NotSetYet<P>(c: Curve<P>, slices: seq<Slice<P>>, sys: System, events: seq<Event>, i: nat)
    requires sys.worlds != [] && Numbered(sys.records) && i >= |Run(c, slices, sys, events).records|
    ensures LastSet(c, slices, sys, events, i).None?
  {
    hide Next, DepositId;
    if events != [] {
      var init := events[..|events| - 1];
      RunNumbered(c, slices, sys, init);
      EventStep(c, slices, Run(c, slices, sys, init), events[|events| - 1]);
      NotSetYet(c, slices, sys, init, i);
    }
  }

  // In every run a record's own state is what the last event to set it set it to,
  // and Pending until there is one: a delivery of a match that is not Pending, a
  // release call of its institution that finds it Approved, or a refund call of its
  // institution that finds it Rejected, Expired, or Pending at or after its expiry.
  lemma {:induction false} OwnStateIsLastSet<P>(c: Curve<P>, slices: seq<Slice<P>>, w: World, events: seq<Event>,
                                                i: nat)
    requires i < |Run(c, slices, Start(w), events).records|
    ensures var last := LastSet(c, slices, Start(w), events, i);
            Run(c, slices, Start(w), events).records[i].state == if last.Some? then last.value else Pending
  {
    hide Next, DepositId, SameOrder;
    if events != [] {
      var init, last := events[..|events| - 1], events[|events| - 1];
      var mid := Run(c, slices, Start(w), init);
      RunNumbered(c, slices, Start(w), init);
      EventStep(c, slices, mid, last);
      if i < |mid.records| {
        OwnStateIsLastSet(c, slices, w, init, i);
        assert RecordStep(mid, last, i, Run(c, slices, Start(w), events).records[i]);
      } else {
        NotSetYet(c, slices, Start(w), init, i);
      }
    }
  }

  // Hence every state but Pending has a cause: Released without a delivery is a
  // release the owner asked for on an approved record, and so on.
  lemma {:induction false} StateHasCause<P>(c: Curve<P>, slices: seq<Slice<P>>, sys: System, events: seq<Event>,
                                            i: nat) returns (k: nat)
    requires sys.worlds != [] && LastSet(c, slices, sys, events, i).Some?
    ensures k < |events|
    ensures SetTo(Run(c, slices, sys, events[..k]), events[k], i) == LastSet(c, slices, sys, events, i)
    ensures forall j :: k < j < |events| ==> SetTo(Run(c, slices, sys, events[..j]), events[j], i).None?
  {
    hide Run, SetTo;
    var init := events[..|events| - 1];
    if SetTo(Run(c, slices, sys, init), events[|events| - 1], i).Some? {
      k := |init|;
    } else {
      k := StateHasCause(c, slices, sys, init, i);
      assert forall j :: 0 <= j < |init| ==> init[..j] == events[..j];
    }
  }

  // -------------------------------------------------------------------------
  // What is posted

  // Every body the indexer will post names the first slice that matches a deposit
  // the chain held when the pass began, and says its key, amount and state.
  lemma PostedBody<P>(c: Curve<P>, slices: seq<Slice<P>>, sys: System, k: nat) returns (i: nat)
    requires SystemOk(c, slices, sys) && k < |sys.queue|
    ensures var body, deposits := Notify(sys.queue[k]), sys.worlds[sys.seen].deposits;
            && body.depositPubkey in deposits
            && var d := deposits[body.depositPubkey];
               && FirstMatch(c, slices, d, i) && body.sliceId == slices[i].sliceId
               && ToHex(body.stealthPubkey) == Some(BytesToHex(d.stealth))
               && body.amount == d.amount && ParseState(body.state) == Some(d.state)
  {
    hide ToHex, Encode, BytesToHex, ParseState, StateName, FirstMatch, RecordsOk, WorldsContinue;
    var m := sys.queue[k];
    assert MatchIn(c, slices, sys.worlds[sys.seen], m);
    i := MatchShape(c, slices, m.depositPubkey, sys.worlds[sys.seen].deposits[m.depositPubkey]);
    KeyTextIsHex(m.stealthPubkey);
    StateNameParses(m.state);
  }
}
