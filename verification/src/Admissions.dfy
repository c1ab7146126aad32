// What every admission of a run answers, told from the events before it.
module Admissions {
  import opened Wrappers
  import opened Ledger
  import opened Relayer
  import T = TokenBucket

  // The policy an institution was last registered with.
  function LastPolicy(events: seq<Event>, id: string): Option<Policy> {
    if events == [] then None
    else
      var last := events[|events| - 1];
      if Registers(last, id) then Some(last.policy) else LastPolicy(events[..|events| - 1], id)
  }

  // Registered as suspended, or suspended since it was last registered.
  predicate IsSuspended(events: seq<Event>, id: string) {
    && events != []
    && var last := events[|events| - 1];
       if Registers(last, id) then last.policy.suspended
       else if last == Suspend(id) && LastPolicy(events, id).Some? then true
       else IsSuspended(events[..|events| - 1], id)
  }

  // The requests that were put to the bucket it was last given.
  function Requests(events: seq<Event>, id: string): seq<T.Request> {
    EpochOf(EMPTY, events, id).history
  }

  // Accepting the fee would pass the cap; a cap of all ones is none.
  predicate PassesCap(events: seq<Event>, id: string, p: Policy) {
    && p.monthlyCap.Some? && p.monthlyCap.value < U64_MAX
    && FeesAccepted(EMPTY, events, id) + p.fee > p.monthlyCap.value
  }

  // No window that opens at creation, at an earlier request or now would be
  // exceeded by one more.
  ghost predicate WindowsAllow(b: T.Bucket, history: seq<T.Request>, at: real) {
    var now := T.Later(T.After(b, history).lastRefill, at);
    && T.Allows(b, history, now, 1, now)
    && forall i: nat :: i <= |history| ==> T.Allows(b, history, T.Instant(b, history, i), 1, now)
  }

  // -------------------------------------------------------------------------
  // The state, told from the events

  lemma {:induction false} PolicyInForce(events: seq<Event>, id: string)
    ensures var s, p := Run(EMPTY, events), LastPolicy(events, id);
            && (id in s.policies <==> p.Some?)
            && (p.Some? ==>
                  && s.policies[id].fee == p.value.fee && s.policies[id].monthlyCap == p.value.monthlyCap
                  && s.policies[id].suspended == IsSuspended(events, id)
                  && EpochOf(EMPTY, events, id).start == Some(p.value.bucket))
  {
    if events != [] {
      PolicyInForce(events[..|events| - 1], id);
      LedgerIsAccepted(events[..|events| - 1], id);
    }
  }

  // A full bucket, as every new one is.
  lemma FullIsRegular(capacity: nat, refillPerSec: real, now: real)
    requires refillPerSec >= 0.0
    ensures var b := T.Full(capacity, refillPerSec, now);
            && T.Regular(b) && b.capacity == capacity as real && b.refillPerSec == refillPerSec && b.lastRefill == now
  {
  }

  // -------------------------------------------------------------------------
  // What an admission answers

  // The answer, and which part of the state it leaves alone.
  lemma Screened(s: State, id: string, now: real)
    requires s.policies.Keys <= s.ledgers.Keys
    ensures var (s2, r) := Admission(s, id, now);
            if id !in s.policies then s2 == s && r == Err(UnknownInstitution)
            else
              var p := s.policies[id];
              if p.suspended then s2 == s && r == Err(Suspended)
              else if && p.monthlyCap.Some? && p.monthlyCap.value < U64_MAX
                      && s.ledgers[id].total + p.fee > p.monthlyCap.value
              then s2 == s && r == Err(FeeCapExceeded)
              else
                && s2.policies == s.policies[id := p.(bucket := T.Consumed(p.bucket, 1, now))]
                && (if T.Admits(p.bucket, 1, now)
                    then r == Ok(Decision(p.fee, s2.policies[id].bucket.tokens.Floor))
                         && s2.ledgers == s.ledgers[id := FeeLedger(Capped(s.ledgers[id].total + p.fee),
                                                                    Capped(s.ledgers[id].txCount + 1))]
                    else r == Err(RateLimited) && s2.ledgers == s.ledgers)
  {
  }

  // Every admission of every run is answered by the first of these that holds: the
  // institution was never registered; it is suspended; the fees it was accepted at
  // would pass its cap; one more would exceed a window of the bucket it was last
  // given; and otherwise it is accepted, at the fee of its last registration.
  lemma AdmissionDecides(events: seq<Event>, id: string, now: real)
    requires RegularBuckets(EMPTY, events, id)
    ensures var p := LastPolicy(events, id);
            var (s2, r) := Admission(Run(EMPTY, events), id, now);
            if p.None? then r == Err(UnknownInstitution)
            else if IsSuspended(events, id) then r == Err(Suspended)
            else if PassesCap(events, id, p.value) then r == Err(FeeCapExceeded)
            else if !WindowsAllow(p.value.bucket, Requests(events, id), now) then r == Err(RateLimited)
            else r.Ok? && r.value.fee == p.value.fee
  {
    hide Admission, T.Consumed, T.Admits, T.Instant, T.Allows, T.After;
    var s, p := Run(EMPTY, events), LastPolicy(events, id);
    PolicyInForce(events, id);
    LedgerIsAccepted(events, id);
    Screened(s, id, now);
    if p.Some? {
      BucketTracksRequests(EMPTY, events, id);
      LastIsRegular(events, id);
      T.ExactLaw(p.value.bucket, Requests(events, id), 1, now);
    }
  }

  lemma {:induction false} LastIsRegular(events: seq<Event>, id: string)
    requires RegularBuckets(EMPTY, events, id) && LastPolicy(events, id).Some?
    ensures T.Regular(LastPolicy(events, id).value.bucket)
  {
    if !Registers(events[|events| - 1], id) {
      LastIsRegular(events[..|events| - 1], id);
    }
  }

  // What it changes: nothing if the bucket was not asked; no ledger if it refused;
  // and if it is accepted, the ledger of the institution by one and by the quoted
  // fee, up to the largest number.
  lemma AdmissionChanges(events: seq<Event>, id: string, now: real)
    ensures var s := Run(EMPTY, events);
            var (s2, r) := Admission(s, id, now);
            && (forall other :: other != id ==> (other in s2.policies <==> other in s.policies)
                                                && (other in s.policies ==> s2.policies[other] == s.policies[other]))
            && (r.Err? && r.error != RateLimited ==> s2 == s)
            && (r.Err? ==> s2.ledgers == s.ledgers)
            && (r.Ok? ==>
                  s2.ledgers == s.ledgers[id := FeeLedger(Capped(FeesAccepted(EMPTY, events, id) + r.value.fee),
                                                          Capped(TimesAccepted(EMPTY, events, id) + 1))])
  {
    hide Admission, T.Consumed, T.Admits;
    LedgerIsAccepted(events, id);
    Screened(Run(EMPTY, events), id, now);
  }

  // The remaining count of an accepted admission is what the tightest window still
  // allows after the grant, rounded down.
  lemma RemainingIsTightest(events: seq<Event>, id: string, now: real) returns (i: nat)
    requires RegularBuckets(EMPTY, events, id) && Admission(Run(EMPTY, events), id, now).1.Ok?
    ensures LastPolicy(events, id).Some? && i <= |Requests(events, id)| + 1
    ensures var b, history := LastPolicy(events, id).value.bucket, Requests(events, id) + [T.Request(1, now)];
            var end := T.After(b, history).lastRefill;
            var remaining := Admission(Run(EMPTY, events), id, now).1.value.bucketRemaining;
            && remaining == T.Allowance(b, history, T.Instant(b, history, i), end).Floor
            && forall from: real :: from <= end ==> remaining <= T.Allowance(b, history, from, end).Floor
  {
    hide Admission, T.Consumed, T.Admits, T.Allowance, T.Instant;
    PolicyInForce(events, id);
    LedgerIsAccepted(events, id);
    Screened(Run(EMPTY, events), id, now);
    BucketTracksRequests(EMPTY, events, id);
    LastIsRegular(events, id);
    var b, history := LastPolicy(events, id).value.bucket, Requests(events, id) + [T.Request(1, now)];
    HistoryGrows(EpochOf(EMPTY, events, id), Admit(id, now));
    i := T.TokensAttained(b, history);
    forall from: real | from <= T.After(b, history).lastRefill
      ensures T.After(b, history).tokens.Floor
              <= T.Allowance(b, history, from, T.After(b, history).lastRefill).Floor
    {
      T.TokensWithinWindows(b, history, from);
    }
  }

  // -------------------------------------------------------------------------
  // Suspension

  lemma SuspensionStep(events: seq<Event>, e: Event, id: string)
    requires LastPolicy(events, id).Some? && IsSuspended(events, id) && !Registers(e, id)
    ensures IsSuspended(events + [e], id) && LastPolicy(events + [e], id) == LastPolicy(events, id)
    ensures var s, s2 := Run(EMPTY, events), Run(EMPTY, events + [e]);
            && id in s.policies && id in s.ledgers && id in s2.policies && id in s2.ledgers
            && s2.policies[id] == s.policies[id] && s2.ledgers[id] == s.ledgers[id]
  {
    assert (events + [e])[..|events|] == events;
    PolicyInForce(events, id);
    LedgerIsAccepted(events, id);
  }

  // From a suspension until the next registration every admission of the institution
  // is refused as suspended, and its policy, bucket and ledger stay as they are.
  lemma {:induction false} SuspendedIsRefused(events: seq<Event>, more: seq<Event>, id: string, now: real)
    requires LastPolicy(events, id).Some? && IsSuspended(events, id)
    requires forall k :: 0 <= k < |more| ==> !Registers(more[k], id)
    ensures IsSuspended(events + more, id) && LastPolicy(events + more, id) == LastPolicy(events, id)
    ensures var s, s2 := Run(EMPTY, events), Run(EMPTY, events + more);
            && id in s.policies && id in s.ledgers && id in s2.policies && id in s2.ledgers
            && s2.policies[id] == s.policies[id] && s2.ledgers[id] == s.ledgers[id]
            && Admission(s2, id, now) == (s2, Err(Suspended))
  {
    hide Run, Admission;
    if more != [] {
      var init := more[..|more| - 1];
      SuspendedIsRefused(events, init, id, now);
      SuspensionStep(events + init, more[|more| - 1], id);
      assert events + more == events + init + [more[|more| - 1]];
    } else {
      assert events + more == events;
    }
    PolicyInForce(events + more, id);
    LedgerIsAccepted(events + more, id);
    Screened(Run(EMPTY, events + more), id, now);
  }
}
