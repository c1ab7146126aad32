// Admission of relayed transactions: per-institution policy, token bucket and
// fee ledger.
module Relayer {
  import opened Wrappers
  import opened Ledger
  import T = TokenBucket

  datatype FeeLedger = FeeLedger(total: U64, txCount: U64)

  function SaturatingAdd(a: U64, b: U64): U64 {
    if a + b <= U64_MAX then a + b else U64_MAX
  }

  function Accrued(l: FeeLedger, fee: U64): FeeLedger {
    FeeLedger(SaturatingAdd(l.total, fee), SaturatingAdd(l.txCount, 1))
  }

  class BillingLedger {
    var accruedMicroUsdc: U64
    var txCount: U64

    function View(): FeeLedger
      reads this
    {
      FeeLedger(accruedMicroUsdc, txCount)
    }

    constructor ()
      ensures View() == FeeLedger(0, 0)
    {
      accruedMicroUsdc, txCount := 0, 0;
    }

    method Accrue(fee: U64)
      modifies this
      ensures View() == Accrued(old(View()), fee)
    {
      accruedMicroUsdc := SaturatingAdd(accruedMicroUsdc, fee);
      txCount := SaturatingAdd(txCount, 1);
    }

    method Reset()
      modifies this
      ensures View() == FeeLedger(0, 0)
    {
      accruedMicroUsdc := 0;
      txCount := 0;
    }
  }

  datatype Policy = Policy(bucket: T.Bucket, fee: U64, monthlyCap: Option<U64>, suspended: bool)

  class InstitutionPolicy {
    const bucket: T.TokenBucket
    const fee: U64
    const monthlyCap: Option<U64>
    var suspended: bool

    function View(): Policy
      reads this, bucket
    {
      Policy(bucket.View(), fee, monthlyCap, suspended)
    }

    constructor (bucket: T.TokenBucket, fee: U64, monthlyCap: Option<U64>)
      ensures this.bucket == bucket && View() == Policy(bucket.View(), fee, monthlyCap, false)
    {
      this.bucket, this.fee, this.monthlyCap, this.suspended := bucket, fee, monthlyCap, false;
    }
  }

  datatype RelayerError = UnknownInstitution | RateLimited | Suspended | FeeCapExceeded | MissingLedgerPanic

  datatype Decision = Decision(fee: U64, bucketRemaining: int)

  // -------------------------------------------------------------------------
  // Admission as a function of the state

  datatype State = State(policies: map<string, Policy>, ledgers: map<string, FeeLedger>)

  function Registered(s: State, id: string, policy: Policy): State {
    State(s.policies[id := policy],
          if id in s.ledgers then s.ledgers else s.ledgers[id := FeeLedger(0, 0)])
  }

  function SuspendedIn(s: State, id: string): State {
    if id in s.policies then s.(policies := s.policies[id := s.policies[id].(suspended := true)]) else s
  }

  // The tests that come before the bucket is asked.
  function Screen(s: State, id: string): Outcome<RelayerError> {
    if id !in s.policies then Fail(UnknownInstitution)
    else if s.policies[id].suspended then Fail(Suspended)
    else if id !in s.ledgers then Fail(MissingLedgerPanic)
    else
      match s.policies[id].monthlyCap
      case Some(cap) =>
        if SaturatingAdd(s.ledgers[id].total, s.policies[id].fee) > cap then Fail(FeeCapExceeded) else Pass
      case None => Pass
  }

  function Admission(s: State, id: string, now: real): (State, Result<Decision, RelayerError>) {
    match Screen(s, id)
    case Fail(e) => (s, Err(e))
    case Pass =>
      var p := s.policies[id];
      var bucket := T.Consumed(p.bucket, 1, now);
      var asked := s.(policies := s.policies[id := p.(bucket := bucket)]);
      if T.Admits(p.bucket, 1, now)
      then (asked.(ledgers := s.ledgers[id := Accrued(s.ledgers[id], p.fee)]),
            Ok(Decision(p.fee, bucket.tokens.Floor)))
      else (asked, Err(RateLimited))
  }

  class Relayer {
    var policies: map<string, InstitutionPolicy>
    var ledgers: map<string, BillingLedger>

    // Each institution owns its policy, its bucket and its ledger.
    ghost predicate Valid()
      reads this, policies.Values
    {
      && (forall i, j :: i in policies && j in policies && i != j ==>
                           policies[i] != policies[j] && policies[i].bucket != policies[j].bucket)
      && (forall i, j :: i in ledgers && j in ledgers && i != j ==> ledgers[i] != ledgers[j])
    }

    ghost function Buckets(): set<T.TokenBucket>
      reads this, policies.Values
    {
      set p | p in policies.Values :: p.bucket
    }

    ghost function Policies(): map<string, Policy>
      reads this, policies.Values, Buckets()
    {
      map id | id in policies :: policies[id].View()
    }

    ghost function Ledgers(): map<string, FeeLedger>
      reads this, ledgers.Values
    {
      map id | id in ledgers :: ledgers[id].View()
    }

    ghost function View(): State
      reads this, policies.Values, Buckets(), ledgers.Values
    {
      State(Policies(), Ledgers())
    }

    constructor ()
      ensures Valid() && View() == State(map[], map[])
    {
      policies, ledgers := map[], map[];
    }

    method Register(id: string, policy: InstitutionPolicy)
      requires Valid() && forall i :: i in policies ==> policies[i] != policy && policies[i].bucket != policy.bucket
      modifies this
      ensures Valid() && View() == Registered(old(View()), id, policy.View())
    {
      policies := policies[id := policy];
      assert Policies() == old(Policies())[id := policy.View()];
      assert Ledgers() == old(Ledgers());
      if id !in ledgers {
        AddLedger(id);
      }
    }

    method AddLedger(id: string)
      requires Valid() && id !in ledgers
      modifies this`ledgers
      ensures Valid() && Ledgers() == old(Ledgers())[id := FeeLedger(0, 0)]
      ensures Policies() == old(Policies())
    {
      var ledger := new BillingLedger();
      ledgers := ledgers[id := ledger];
    }

    method Suspend(id: string)
      requires Valid()
      modifies policies.Values
      ensures Valid() && View() == SuspendedIn(old(View()), id)
    {
      if id in policies {
        policies[id].suspended := true;
      }
    }

    method AskBucket(id: string, now: real) returns (ok: bool)
      requires Valid() && id in policies
      modifies policies[id].bucket
      ensures Valid() && Ledgers() == old(Ledgers())
      ensures ok == T.Admits(old(policies[id].bucket.View()), 1, now)
      ensures Policies() == old(Policies())[id := policies[id].View()]
      ensures policies[id].bucket.View() == T.Consumed(old(policies[id].bucket.View()), 1, now)
    {
      ok := policies[id].bucket.TryConsumeAt(1, now);
    }

    method AccrueFee(id: string, fee: U64)
      requires Valid() && id in ledgers
      modifies ledgers[id]
      ensures Valid() && Policies() == old(Policies())
      ensures Ledgers() == old(Ledgers())[id := Accrued(old(ledgers[id].View()), fee)]
    {
      ledgers[id].Accrue(fee);
    }

    method Admit(id: string, now: real) returns (r: Result<Decision, RelayerError>)
      requires Valid()
      modifies Buckets(), ledgers.Values
      ensures Valid() && (View(), r) == Admission(old(View()), id, now)
    {
      if id !in policies {
        return Err(UnknownInstitution);
      }
      var policy := policies[id];
      if policy.suspended {
        return Err(Suspended);
      }
      if id !in ledgers {
        return Err(MissingLedgerPanic);
      }
      var ledger := ledgers[id];
      if policy.monthlyCap.Some? && SaturatingAdd(ledger.accruedMicroUsdc, policy.fee) > policy.monthlyCap.value {
        return Err(FeeCapExceeded);
      }
      var ok := AskBucket(id, now);
      if !ok {
        return Err(RateLimited);
      }
      AccrueFee(id, policy.fee);
      return Ok(Decision(policy.fee, policy.bucket.tokens.Floor));
    }
  }

  // -------------------------------------------------------------------------
  // Runs

  datatype Event =
    | Register(id: string, policy: Policy)
    | Suspend(id: string)
    | Admit(id: string, now: real)

  function Next(s: State, e: Event): State {
    match e
    case Register(id, policy) => Registered(s, id, policy)
    case Suspend(id) => SuspendedIn(s, id)
    case Admit(id, now) => Admission(s, id, now).0
  }

  function Run(s: State, events: seq<Event>): State {
    if events == [] then s else Next(Run(s, events[..|events| - 1]), events[|events| - 1])
  }

  predicate Accepts(s: State, e: Event, id: string) {
    e.Admit? && e.id == id && Admission(s, id, e.now).1.Ok?
  }

  // Fees quoted in the accepted admissions of one institution, and their number.
  function FeesAccepted(s: State, events: seq<Event>, id: string): nat {
    if events == [] then 0
    else
      var before := events[..|events| - 1];
      FeesAccepted(s, before, id)
      + (if Accepts(Run(s, before), events[|events| - 1], id) then Run(s, before).policies[id].fee else 0)
  }

  function TimesAccepted(s: State, events: seq<Event>, id: string): nat {
    if events == [] then 0
    else
      var before := events[..|events| - 1];
      TimesAccepted(s, before, id) + (if Accepts(Run(s, before), events[|events| - 1], id) then 1 else 0)
  }

  function Capped(n: nat): U64 {
    if n <= U64_MAX then n else U64_MAX
  }

  const EMPTY := State(map[], map[])

  // Over any run the panic is unreachable, and the ledger of an institution is
  // the saturated sum, and count, of the fees it was accepted at: registering
  // it again or suspending it changes neither.
  lemma {:induction false} LedgerIsAccepted(events: seq<Event>, id: string)
    ensures var s := Run(EMPTY, events);
            && s.policies.Keys <= s.ledgers.Keys
            && (forall now :: Admission(s, id, now).1 != Err(MissingLedgerPanic))
            && (id in s.ledgers ==>
                  s.ledgers[id] == FeeLedger(Capped(FeesAccepted(EMPTY, events, id)),
                                             Capped(TimesAccepted(EMPTY, events, id))))
            && (id !in s.ledgers ==> FeesAccepted(EMPTY, events, id) == 0 && TimesAccepted(EMPTY, events, id) == 0)
  {
    if events != [] {
      LedgerIsAccepted(events[..|events| - 1], id);
    }
  }

  // A refused admission changes no ledger; an accepted one changes only its
  // own, and leaves it within the cap in force.
  lemma AdmissionRespectsCap(s: State, id: string, now: real)
    ensures var (s2, r) := Admission(s, id, now);
            && (r.Err? ==> s2.ledgers == s.ledgers)
            && (r.Ok? ==>
                  && id in s2.ledgers && id in s.policies
                  && s2.ledgers == s.ledgers[id := s2.ledgers[id]]
                  && (s.policies[id].monthlyCap.Some? ==> s2.ledgers[id].total <= s.policies[id].monthlyCap.value))
  {
  }

  // -------------------------------------------------------------------------
  // Rate

  // The admission is answered by the bucket: accepted, or refused for its rate.
  predicate Reaches(s: State, e: Event, id: string) {
    e.Admit? && e.id == id
    && (Admission(s, id, e.now).1.Ok? || Admission(s, id, e.now).1 == Err(RateLimited))
  }

  predicate Registers(e: Event, id: string) {
    e.Register? && e.id == id
  }

  // The bucket an institution was last given, and the requests that have reached
  // it since.
  datatype Epoch = Epoch(start: Option<T.Bucket>, history: seq<T.Request>)

  function EpochOf(s: State, events: seq<Event>, id: string): Epoch {
    if events == [] then Epoch(if id in s.policies then Some(s.policies[id].bucket) else None, [])
    else
      var before, last := events[..|events| - 1], events[|events| - 1];
      var epoch := EpochOf(s, before, id);
      if Registers(last, id) then Epoch(Some(last.policy.bucket), [])
      else if Reaches(Run(s, before), last, id) then epoch.(history := epoch.history + [T.Request(1, last.now)])
      else epoch
  }

  // Admissions accepted while the bucket's clock was in [from, to].
  function AcceptedIn(s: State, events: seq<Event>, id: string, from: real, to: real): nat {
    if events == [] then 0
    else
      var before := events[..|events| - 1];
      AcceptedIn(s, before, id, from, to)
      + (if Accepts(Run(s, before), events[|events| - 1], id)
            && id in Run(s, events).policies && from <= Run(s, events).policies[id].bucket.lastRefill <= to
         then 1 else 0)
  }

  lemma NextBucket(s: State, e: Event, id: string)
    requires id in s.policies && !Registers(e, id)
    ensures var b := s.policies[id].bucket;
            && id in Next(s, e).policies
            && Next(s, e).policies[id].bucket == (if Reaches(s, e, id) then T.Consumed(b, 1, e.now) else b)
            && (Accepts(s, e, id) <==> Reaches(s, e, id) && T.Admits(b, 1, e.now))
  {
  }

  lemma NextStranger(s: State, e: Event, id: string)
    requires id !in s.policies && !Registers(e, id)
    ensures id !in Next(s, e).policies && !Reaches(s, e, id) && !Accepts(s, e, id)
  {
  }

  // In every run the bucket of an institution is the one it was last given after
  // exactly the requests of its own that passed the screen since, whatever else
  // was registered, suspended or admitted.
  lemma {:induction false} BucketTracksRequests(s: State, events: seq<Event>, id: string)
    ensures var epoch := EpochOf(s, events, id);
            && (id in Run(s, events).policies <==> epoch.start.Some?)
            && (epoch.start.Some? ==>
                  Run(s, events).policies[id].bucket == T.After(epoch.start.value, epoch.history))
  {
    if events != [] {
      var before, last := events[..|events| - 1], events[|events| - 1];
      BucketTracksRequests(s, before, id);
      if !Registers(last, id) {
        if id in Run(s, before).policies {
          NextBucket(Run(s, before), last, id);
          if Reaches(Run(s, before), last, id) {
            HistoryGrows(EpochOf(s, before, id), last);
          }
        } else {
          NextStranger(Run(s, before), last, id);
        }
      }
    }
  }

  lemma HistoryGrows(epoch: Epoch, e: Event)
    requires e.Admit? && epoch.start.Some?
    ensures var longer := epoch.history + [T.Request(1, e.now)];
            && T.After(epoch.start.value, longer)
               == T.Consumed(T.After(epoch.start.value, epoch.history), 1, e.now)
  {
    var longer := epoch.history + [T.Request(1, e.now)];
    assert longer[..|longer| - 1] == epoch.history;
  }

  // Every bucket the institution was given is full and refills at no negative rate.
  ghost predicate RegularBuckets(s: State, events: seq<Event>, id: string) {
    && (id in s.policies ==> T.Regular(s.policies[id].bucket))
    && (forall i :: 0 <= i < |events| && Registers(events[i], id) ==> T.Regular(events[i].policy.bucket))
  }

  // What a window of this length allows of an institution: capacity + rate *
  // length for each bucket it was given.
  function Budget(s: State, events: seq<Event>, id: string, length: real): real {
    if events == [] then (if id in s.policies then T.Ceiling(s.policies[id].bucket, length) else 0.0)
    else
      var last := events[|events| - 1];
      Budget(s, events[..|events| - 1], id, length)
      + (if Registers(last, id) then T.Ceiling(last.policy.bucket, length) else 0.0)
  }

  // Accepted admissions of closed epochs are within the budget of closed epochs;
  // those of the current one are what its bucket granted.
  ghost predicate WithinBudget(s: State, events: seq<Event>, id: string, from: real, to: real) {
    var epoch := EpochOf(s, events, id);
    var accepted, budget := AcceptedIn(s, events, id, from, to) as real, Budget(s, events, id, to - from);
    if epoch.start.None? then accepted <= budget
    else
      T.Regular(epoch.start.value)
      && accepted + T.Ceiling(epoch.start.value, to - from)
         <= budget + T.GrantedIn(epoch.start.value, epoch.history, from, to) as real
  }

  lemma WithinIsBelow(s: State, events: seq<Event>, id: string, from: real, to: real)
    requires WithinBudget(s, events, id, from, to) && from <= to
    ensures AcceptedIn(s, events, id, from, to) as real <= Budget(s, events, id, to - from)
  {
    var epoch := EpochOf(s, events, id);
    if epoch.start.Some? {
      T.WindowBound(epoch.start.value, epoch.history, from, to);
    }
  }

  lemma RequestKeepsWithin(s: State, events: seq<Event>, id: string, from: real, to: real)
    requires events != [] && !Registers(events[|events| - 1], id)
    requires WithinBudget(s, events[..|events| - 1], id, from, to)
    ensures WithinBudget(s, events, id, from, to)
  {
    hide Next, Screen, T.Ceiling;
    var before, last := events[..|events| - 1], events[|events| - 1];
    var epoch := EpochOf(s, before, id);
    BucketTracksRequests(s, before, id);
    BucketTracksRequests(s, events, id);
    if epoch.start.None? {
      NextStranger(Run(s, before), last, id);
    } else {
      NextBucket(Run(s, before), last, id);
      if Reaches(Run(s, before), last, id) {
        var longer := epoch.history + [T.Request(1, last.now)];
        assert longer[..|longer| - 1] == epoch.history;
      }
    }
  }

  lemma {:induction false} RunWithinBudget(s: State, events: seq<Event>, id: string, from: real, to: real)
    requires RegularBuckets(s, events, id) && from <= to
    ensures WithinBudget(s, events, id, from, to)
  {
    if events != [] {
      var before, last := events[..|events| - 1], events[|events| - 1];
      RunWithinBudget(s, before, id, from, to);
      if Registers(last, id) {
        WithinIsBelow(s, before, id, from, to);
      } else {
        RequestKeepsWithin(s, events, id, from, to);
      }
    }
  }

  // However its requests, registrations and suspensions and the other institutions
  // interleave, an institution is never accepted more often in a window than the
  // buckets it was given allow: capacity + rate * length for each.
  lemma AcceptedWindowBound(s: State, events: seq<Event>, id: string, from: real, to: real)
    requires RegularBuckets(s, events, id) && from <= to
    ensures AcceptedIn(s, events, id, from, to) as real <= Budget(s, events, id, to - from)
  {
    RunWithinBudget(s, events, id, from, to);
    WithinIsBelow(s, events, id, from, to);
  }
}
