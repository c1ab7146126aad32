// The lazily refilled token bucket, over the reals, against a sliding window.
module TokenBucket {

  datatype Bucket = Bucket(capacity: real, refillPerSec: real, tokens: real, lastRefill: real)

  // The one product, by name, so that a proof can do without its definition.
  function Gained(rate: real, elapsed: real): real {
    rate * elapsed
  }

  lemma GainedNonNegative(rate: real, elapsed: real)
    requires rate >= 0.0 && elapsed >= 0.0
    ensures Gained(rate, elapsed) >= 0.0
  {
  }

  lemma GainedAdds(rate: real, x: real, y: real)
    ensures Gained(rate, x + y) == Gained(rate, x) + Gained(rate, y)
    ensures Gained(rate, 0.0) == 0.0
  {
  }

  function Refilled(b: Bucket, now: real): Bucket {
    if now <= b.lastRefill then b
    else
      var raised := b.tokens + Gained(b.refillPerSec, now - b.lastRefill);
      b.(tokens := if raised < b.capacity then raised else b.capacity, lastRefill := now)
  }

  predicate Admits(b: Bucket, n: nat, now: real) {
    Refilled(b, now).tokens >= n as real
  }

  function Consumed(b: Bucket, n: nat, now: real): Bucket {
    var r := Refilled(b, now);
    if r.tokens >= n as real then r.(tokens := r.tokens - n as real) else r
  }

  class TokenBucket {
    var capacity: real
    var refillPerSec: real
    var tokens: real
    var lastRefill: real

    function View(): Bucket
      reads this
    {
      Bucket(capacity, refillPerSec, tokens, lastRefill)
    }

    constructor (capacity: nat, refillPerSec: real, now: real)
      ensures View() == Full(capacity, refillPerSec, now)
    {
      this.capacity := capacity as real;
      this.refillPerSec := refillPerSec;
      this.tokens := capacity as real;
      this.lastRefill := now;
    }

    method Refill(now: real)
      modifies this
      ensures View() == Refilled(old(View()), now)
    {
      if now <= lastRefill {
        return;
      }
      var elapsed := now - lastRefill;
      var added := Gained(refillPerSec, elapsed);
      tokens := if tokens + added < capacity then tokens + added else capacity;
      lastRefill := now;
    }

    method TryConsumeAt(n: nat, now: real) returns (ok: bool)
      modifies this
      ensures ok == Admits(old(View()), n, now)
      ensures View() == Consumed(old(View()), n, now)
    {
      Refill(now);
      var cost := n as real;
      if tokens >= cost {
        tokens := tokens - cost;
        ok := true;
      } else {
        ok := false;
      }
    }
  }

  function Full(capacity: nat, refillPerSec: real, now: real): Bucket {
    Bucket(capacity as real, refillPerSec, capacity as real, now)
  }

  // -------------------------------------------------------------------------
  // Histories

  datatype Request = Request(n: nat, at: real)

  function After(b: Bucket, history: seq<Request>): Bucket {
    if history == [] then b
    else
      var last := history[|history| - 1];
      Consumed(After(b, history[..|history| - 1]), last.n, last.at)
  }

  // Instant i of a history: creation for 0, then the running maximum of the
  // request times, as the bucket sees them.
  function Instant(b: Bucket, history: seq<Request>, i: nat): real
    requires i <= |history|
  {
    After(b, history[..i]).lastRefill
  }

  function Later(s: real, t: real): real {
    if s < t then t else s
  }

  function Granted(b: Bucket, history: seq<Request>): nat
    requires history != []
  {
    var last := history[|history| - 1];
    if Admits(After(b, history[..|history| - 1]), last.n, last.at) then last.n else 0
  }

  // Tokens granted at instants in [from, to].
  function GrantedIn(b: Bucket, history: seq<Request>, from: real, to: real): nat {
    if history == [] then 0
    else
      GrantedIn(b, history[..|history| - 1], from, to)
      + (if from <= After(b, history).lastRefill <= to then Granted(b, history) else 0)
  }

  function GrantedSince(b: Bucket, history: seq<Request>, from: real): nat {
    GrantedIn(b, history, from, After(b, history).lastRefill)
  }

  // What a window that opens at `from` still allows at time `now`.
  function Allowance(b: Bucket, history: seq<Request>, from: real, now: real): real {
    Ceiling(b, now - from) - GrantedSince(b, history, from) as real
  }

  ghost predicate Regular(b: Bucket) {
    b.tokens == b.capacity && b.capacity >= 0.0 && b.refillPerSec >= 0.0
  }

  // Ceiling of a window: what a window of this length may grant at most.
  function Ceiling(b: Bucket, length: real): real {
    b.capacity + Gained(b.refillPerSec, length)
  }

  lemma CeilingGrows(b: Bucket, x: real, y: real)
    requires b.refillPerSec >= 0.0 && x <= y
    ensures Ceiling(b, x) <= Ceiling(b, y)
    ensures Ceiling(b, 0.0) == b.capacity
  {
    hide Gained;
    GainedNonNegative(b.refillPerSec, y - x);
    GainedAdds(b.refillPerSec, x, y - x);
    assert x + (y - x) == y;
  }

  lemma CeilingAdds(b: Bucket, x: real, y: real)
    ensures Ceiling(b, x + y) == Ceiling(b, x) + Gained(b.refillPerSec, y)
  {
    hide Gained;
    GainedAdds(b.refillPerSec, x, y);
  }

  lemma RefilledBasics(p: Bucket, at: real)
    requires 0.0 <= p.tokens <= p.capacity && p.refillPerSec >= 0.0
    ensures var r := Refilled(p, at);
            && r.capacity == p.capacity && r.refillPerSec == p.refillPerSec
            && p.tokens <= r.tokens <= r.capacity && r.lastRefill == Later(p.lastRefill, at)
  {
    hide Gained;
    if at > p.lastRefill {
      GainedNonNegative(p.refillPerSec, at - p.lastRefill);
    }
  }

  // Refilling keeps a bucket within every window, and tight in the one in which
  // it was tight unless it is full again.
  lemma RefilledWithin(p: Bucket, at: real, from: real, used: real)
    requires p.tokens <= p.capacity && p.refillPerSec >= 0.0 && from <= p.lastRefill
    requires p.tokens <= Ceiling(p, p.lastRefill - from) - used
    ensures var r := Refilled(p, at);
            && r.tokens <= Ceiling(p, r.lastRefill - from) - used
            && (p.tokens == Ceiling(p, p.lastRefill - from) - used ==>
                  r.tokens == Ceiling(p, r.lastRefill - from) - used
                  || (r.tokens == r.capacity && r.lastRefill == at > p.lastRefill))
  {
    hide Gained;
    if at > p.lastRefill {
      CeilingAdds(p, p.lastRefill - from, at - p.lastRefill);
      assert at - from == (p.lastRefill - from) + (at - p.lastRefill);
    }
  }

  lemma {:induction false} AfterBasics(b: Bucket, history: seq<Request>)
    requires Regular(b)
    ensures var a := After(b, history);
            && a.capacity == b.capacity && a.refillPerSec == b.refillPerSec
            && 0.0 <= a.tokens <= a.capacity && b.lastRefill <= a.lastRefill
    ensures history != [] ==>
              After(b, history).lastRefill
              == Later(After(b, history[..|history| - 1]).lastRefill, history[|history| - 1].at)
  {
    hide Gained;
    if history != [] {
      AfterBasics(b, history[..|history| - 1]);
      RefilledBasics(After(b, history[..|history| - 1]), history[|history| - 1].at);
    }
  }

  // Raising the end of a window past the last instant adds nothing to it.
  lemma {:induction false} GrantedInBeyond(b: Bucket, history: seq<Request>, from: real, to: real)
    requires Regular(b) && After(b, history).lastRefill <= to
    ensures GrantedIn(b, history, from, to) == GrantedSince(b, history, from)
    ensures from > After(b, history).lastRefill ==> GrantedIn(b, history, from, to) == 0
  {
    hide Gained;
    if history != [] {
      var before := history[..|history| - 1];
      AfterBasics(b, history);
      GrantedInBeyond(b, before, from, to);
      GrantedInBeyond(b, before, from, After(b, history).lastRefill);
    }
  }

  lemma GrantedSinceStep(b: Bucket, history: seq<Request>, from: real)
    requires Regular(b) && history != []
    ensures GrantedSince(b, history, from)
            == GrantedSince(b, history[..|history| - 1], from)
               + (if from <= After(b, history).lastRefill then Granted(b, history) else 0)
  {
    hide Gained;
    AfterBasics(b, history);
    GrantedInBeyond(b, history[..|history| - 1], from, After(b, history).lastRefill);
  }

  lemma CeilingOf(b: Bucket, a: Bucket, length: real)
    requires a.capacity == b.capacity && a.refillPerSec == b.refillPerSec
    ensures Ceiling(a, length) == Ceiling(b, length)
  {
  }

  // No window, opening at any time up to the last instant, allows less than the
  // bucket holds.
  lemma {:induction false} TokensWithinWindows(b: Bucket, history: seq<Request>, from: real)
    requires Regular(b) && from <= After(b, history).lastRefill
    ensures After(b, history).tokens <= Allowance(b, history, from, After(b, history).lastRefill)
  {
    hide Gained;
    var a := After(b, history);
    AfterBasics(b, history);
    CeilingGrows(b, 0.0, a.lastRefill - from);
    if history != [] {
      var before, last := history[..|history| - 1], history[|history| - 1];
      var p := After(b, before);
      AfterBasics(b, before);
      RefilledBasics(p, last.at);
      GrantedSinceStep(b, history, from);
      CeilingOf(b, p, p.lastRefill - from);
      CeilingOf(b, p, a.lastRefill - from);
      if from <= p.lastRefill {
        TokensWithinWindows(b, before, from);
        RefilledWithin(p, last.at, from, GrantedSince(b, before, from) as real);
      } else {
        GrantedInBeyond(b, before, from, p.lastRefill);
      }
    }
  }

  // One window that opens at an instant of the history allows exactly what the
  // bucket holds.
  lemma {:induction false} TokensAttained(b: Bucket, history: seq<Request>) returns (i: nat)
    requires Regular(b)
    ensures i <= |history|
    ensures Instant(b, history, i) <= After(b, history).lastRefill
    ensures After(b, history).tokens == Allowance(b, history, Instant(b, history, i), After(b, history).lastRefill)
  {
    hide Gained;
    var a := After(b, history);
    AfterBasics(b, history);
    assert history[..|history|] == history;
    CeilingGrows(b, 0.0, 0.0);
    if history == [] {
      i := 0;
    } else {
      var before, last := history[..|history| - 1], history[|history| - 1];
      var p := After(b, before);
      AfterBasics(b, before);
      RefilledBasics(p, last.at);
      i := TokensAttained(b, before);
      var s := Instant(b, before, i);
      assert before[..i] == history[..i];
      GrantedSinceStep(b, history, s);
      CeilingOf(b, p, p.lastRefill - s);
      CeilingOf(b, p, a.lastRefill - s);
      RefilledWithin(p, last.at, s, GrantedSince(b, before, s) as real);
      if Refilled(p, last.at).tokens != Ceiling(p, a.lastRefill - s) - GrantedSince(b, before, s) as real {
        i := |history|;
        GrantedSinceStep(b, history, a.lastRefill);
        GrantedInBeyond(b, before, a.lastRefill, p.lastRefill);
      }
    }
  }

  // -------------------------------------------------------------------------
  // The sliding window

  ghost predicate Allows(b: Bucket, history: seq<Request>, from: real, n: nat, now: real) {
    n as real <= Allowance(b, history, from, now)
  }

  // The bucket's answer is exactly the sliding window's: a request passes iff
  // no window opening at creation, at an earlier request or now would exceed
  // capacity + rate * length; and then no window at all would.
  lemma ExactLaw(b: Bucket, history: seq<Request>, n: nat, at: real)
    requires Regular(b)
    ensures var p := After(b, history);
            var now := Later(p.lastRefill, at);
            && (Admits(p, n, at)
                <==> Allows(b, history, now, n, now)
                     && forall i: nat :: i <= |history| ==> Allows(b, history, Instant(b, history, i), n, now))
            && (Admits(p, n, at) ==> forall from: real :: from <= now ==> Allows(b, history, from, n, now))
  {
    hide Gained;
    var p := After(b, history);
    var now := Later(p.lastRefill, at);
    // A request for nothing settles the bucket at `now` without spending.
    var probe := history + [Request(0, at)];
    assert probe[..|probe| - 1] == history;
    var r := Refilled(p, at);
    assert After(b, probe) == r;
    AfterBasics(b, history);
    AfterBasics(b, probe);
    forall from: real | from <= now
      ensures Allowance(b, probe, from, now) == Allowance(b, history, from, now)
              && r.tokens <= Allowance(b, history, from, now)
    {
      GrantedSinceStep(b, probe, from);
      TokensWithinWindows(b, probe, from);
    }
    forall i: nat | i <= |history| ensures Instant(b, history, i) <= now {
      InstantsOrdered(b, history, i);
    }
    if Allows(b, history, now, n, now)
       && forall i: nat :: i <= |history| ==> Allows(b, history, Instant(b, history, i), n, now)
    {
      var i := TokensAttained(b, probe);
      if i <= |history| {
        assert probe[..i] == history[..i];
        assert Allows(b, history, Instant(b, history, i), n, now);
      } else {
        assert probe[..i] == probe;
      }
    }
  }

  lemma {:induction false} InstantsOrdered(b: Bucket, history: seq<Request>, i: nat)
    requires Regular(b) && i <= |history|
    ensures Instant(b, history, i) <= After(b, history).lastRefill
  {
    if i == |history| {
      assert history[..i] == history;
    } else {
      var before := history[..|history| - 1];
      assert before[..i] == history[..i];
      InstantsOrdered(b, before, i);
      AfterBasics(b, history);
    }
  }

  // No window ever grants more than capacity + rate * length.
  lemma {:induction false} WindowBound(b: Bucket, history: seq<Request>, from: real, to: real)
    requires Regular(b) && from <= to
    ensures GrantedIn(b, history, from, to) as real <= Ceiling(b, to - from)
  {
    hide Gained;
    CeilingGrows(b, 0.0, to - from);
    if history != [] {
      var a := After(b, history);
      if from <= a.lastRefill <= to {
        AfterBasics(b, history);
        TokensWithinWindows(b, history, from);
        GrantedInBeyond(b, history, from, to);
        CeilingGrows(b, a.lastRefill - from, to - from);
      } else {
        WindowBound(b, history[..|history| - 1], from, to);
      }
    }
  }
}
