// What the indexer posts for a match and what the gateway reads from it.
module Webhook {
  import opened Wrappers
  import opened Keys
  import opened Ledger
  import opened KeyText
  import opened Vault
  import opened Store
  import I = Indexer

  function StateName(s: DepositState): string {
    match s
    case Pending => "pending"
    case Approved => "approved"
    case Rejected => "rejected"
    case Released => "released"
    case Refunded => "refunded"
    case Expired => "expired"
  }

  // The names the gateway's schema admits.
  function ParseState(name: string): Option<DepositState> {
    if name == "pending" then Some(Pending)
    else if name == "approved" then Some(Approved)
    else if name == "rejected" then Some(Rejected)
    else if name == "released" then Some(Released)
    else if name == "refunded" then Some(Refunded)
    else if name == "expired" then Some(Expired)
    else None
  }

  datatype Body = Body(sliceId: U64, depositPubkey: Address, stealthPubkey: string, amount: U64, state: string)

  function Notify(m: I.PaymentMatch): Body {
    Body(m.sliceId, m.depositPubkey, Encode(m.stealthPubkey), m.amount, StateName(m.state))
  }

  // -------------------------------------------------------------------------
  // JSON numbers are doubles: a 53-bit significand, ties to even.

  const TWO_53: nat := 0x20_0000_0000_0000

  // The spacing of doubles at n.
  function Spacing(n: nat): (u: nat)
    ensures u >= 1
  {
    if n < TWO_53 then 1 else 2 * Spacing(n / 2)
  }

  // Products, quotients and remainders by name, so that a proof can do without
  // their definitions.
  function Times(q: nat, u: nat): nat {
    q * u
  }

  function Quotient(n: nat, u: nat): nat
    requires u >= 1
  {
    n / u
  }

  function Remainder(n: nat, u: nat): nat
    requires u >= 1
  {
    n % u
  }

  lemma DivideBy(n: nat, u: nat)
    requires u >= 1
    ensures n == Times(Quotient(n, u), u) + Remainder(n, u) && Remainder(n, u) < u
  {
  }

  lemma TimesNext(q: nat, u: nat)
    ensures Times(q + 1, u) == Times(q, u) + u
  {
  }

  lemma TimesGrows(a: nat, b: nat, u: nat)
    requires a <= b
    ensures Times(a, u) <= Times(b, u)
  {
    var more := b - a;
    assert b * u == a * u + more * u;
  }

  // The multiple of u that n rounds to, as a number of u.
  function RoundedQuotient(n: nat, u: nat): nat
    requires u >= 1
  {
    var q, r := Quotient(n, u), Remainder(n, u);
    if 2 * r < u || (2 * r == u && q % 2 == 0) then q else q + 1
  }

  function JsNumber(n: nat): nat {
    Times(RoundedQuotient(n, Spacing(n)), Spacing(n))
  }

  lemma RoundedNearest(n: nat, u: nat)
    requires u >= 1
    ensures var q := RoundedQuotient(n, u);
            && q <= Quotient(n, u) + 1
            && 2 * (Times(q, u) - n) <= u && 2 * (n - Times(q, u)) <= u
            && (2 * (Times(q, u) - n) == u || 2 * (n - Times(q, u)) == u ==> q % 2 == 0)
            && (Times(q, u) == n <==> Remainder(n, u) == 0)
  {
    hide Times, Quotient, Remainder;
    DivideBy(n, u);
    TimesNext(Quotient(n, u), u);
  }

  // The significand has at most 53 bits, and no fewer where doubles are spread out.
  lemma {:induction false} SpacingFits(n: nat)
    ensures n < TWO_53 * Spacing(n)
    ensures Spacing(n) == 1 || n >= TWO_53 / 2 * Spacing(n)
  {
    if n >= TWO_53 {
      SpacingFits(n / 2);
    }
  }

  lemma QuotientFits(n: nat)
    ensures Quotient(n, Spacing(n)) < TWO_53
  {
    hide Spacing, Quotient, Remainder;
    var u := Spacing(n);
    SpacingFits(n);
    DivideBy(n, u);
    if Quotient(n, u) >= TWO_53 {
      TimesGrows(TWO_53, Quotient(n, u), u);
    }
  }

  // The number read is a nearest double, the one with an even significand when
  // there are two.
  lemma JsNumberNearest(n: nat) returns (significand: nat)
    ensures significand <= TWO_53 && JsNumber(n) == significand * Spacing(n)
    ensures 2 * (JsNumber(n) - n) <= Spacing(n) && 2 * (n - JsNumber(n)) <= Spacing(n)
    ensures 2 * (JsNumber(n) - n) == Spacing(n) || 2 * (n - JsNumber(n)) == Spacing(n) ==> significand % 2 == 0
  {
    hide Spacing, RoundedQuotient, Quotient, Remainder;
    QuotientFits(n);
    RoundedNearest(n, Spacing(n));
    significand := RoundedQuotient(n, Spacing(n));
  }

  // An amount survives the trip exactly when it is a multiple of the spacing,
  // in particular whenever it is below 2^53.
  lemma JsNumberExact(n: nat)
    ensures JsNumber(n) == n <==> n % Spacing(n) == 0
    ensures n < TWO_53 ==> JsNumber(n) == n
  {
    hide RoundedQuotient, Times;
    RoundedNearest(n, Spacing(n));
  }

  // The first amount that does not survive.
  lemma JsNumberRounds()
    ensures JsNumber(TWO_53 + 1) == TWO_53
  {
    assert Spacing((TWO_53 + 1) / 2) == 1;
    assert RoundedQuotient(TWO_53 + 1, 2) == TWO_53 / 2;
  }

  // -------------------------------------------------------------------------
  // The handler

  function DetectedRoute(records: seq<Record>, body: Body, at: int): (seq<Record>, Response) {
    match ParseState(body.state)
    case None => (records, BadRequest)
    case Some(state) =>
      match ToHex(body.stealthPubkey)
      case None => (records, ServerError)
      case Some(hex) =>
        var o := Observation(body.depositPubkey, JsNumber(body.amount), state);
        var i := FirstWith(records, hex);
        if i == |records| then (records, NotFound)
        else (ApplyMatch(records, hex, o, at), Done(Observed(records[i], o, at)))
  }

  method PostDepositDetected(store: MemoryStore, body: Body, now: int) returns (r: Response)
    requires store.Valid()
    modifies store.deposits
    ensures store.Valid() && (store.View(), r) == DetectedRoute(old(store.View()), body, now)
  {
    var state := ParseState(body.state);
    if state.None? {
      return BadRequest;
    }
    var stealthHex := Base58OrHexToHex(body.stealthPubkey);
    if stealthHex.Err? {
      return ServerError;
    }
    var o := Observation(body.depositPubkey, JsNumber(body.amount), state.value);
    var updated := store.ApplyOnChainMatch(stealthHex.value, o, now);
    if updated.None? {
      return NotFound;
    }
    return Done(updated.value.View());
  }

  // How any body is answered: refused as invalid iff its state is not one of the six
  // names, as a server error iff its key is then neither 64 hex digits nor base58
  // text, as unknown iff no record has the key; and no refusal changes a record.
  lemma BodyAnswers(records: seq<Record>, body: Body, at: int)
    ensures var (after, answer) := DetectedRoute(records, body, at);
            var named := body.state in ["pending", "approved", "rejected", "released", "refunded", "expired"];
            var keyed := IsKeyHex(body.stealthPubkey) || IsBase58(body.stealthPubkey);
            && (answer == BadRequest <==> !named)
            && (answer == ServerError <==> named && !keyed)
            && (answer.Done? ==> exists i :: 0 <= i < |after| && answer == Done(after[i]))
            && (answer == NotFound
                <==> named && keyed && forall i :: 0 <= i < |records| ==>
                       Some(BytesToHex(records[i].stealth)) != ToHex(body.stealthPubkey))
            && (!answer.Done? ==> after == records)
  {
    hide BytesToHex, IsKeyHex, IsBase58, Lower, Decode, JsNumber, FirstWith;
    var (after, answer) := DetectedRoute(records, body, at);
    if answer.Done? {
      assert answer == Done(after[FirstWith(records, ToHex(body.stealthPubkey).value)]);
    }
  }

  // The first record of a key.
  function FirstOf(records: seq<Record>, key: Key32): (i: nat)
    ensures i <= |records|
    ensures i < |records| ==> records[i].stealth == key
    ensures forall j :: 0 <= j < i ==> records[j].stealth != key
  {
    if records == [] then 0
    else if records[0].stealth == key then 0
    else 1 + FirstOf(records[1..], key)
  }

  function ObservationOf(m: I.PaymentMatch): Observation {
    Observation(m.depositPubkey, JsNumber(m.amount), m.state)
  }

  function ObserveMatch(records: seq<Record>, m: I.PaymentMatch, at: int): seq<Record> {
    var i := FirstOf(records, m.stealthPubkey);
    if i < |records| then records[i := Observed(records[i], ObservationOf(m), at)] else records
  }

  lemma StateNameParses(s: DepositState)
    ensures ParseState(StateName(s)) == Some(s)
  {
  }

  lemma FirstWithIsFirstOf(records: seq<Record>, key: Key32)
    ensures FirstWith(records, BytesToHex(key)) == FirstOf(records, key)
  {
    FirstOfKey(records, key);
  }

  lemma KeyTextIsHex(key: Key32)
    ensures ToHex(Encode(key)) == Some(BytesToHex(key))
  {
    var hex := BytesToHex(key);
    HexIsLowerHex(key);
    assert Lower(hex) == hex;
    KeyFormsAgree(key, hex);
  }

  // End to end, through the text of the key and of the state: a delivered match
  // changes exactly the first record of its stealth key, and is answered with it.
  lemma DeliveryFindsKey(records: seq<Record>, m: I.PaymentMatch, at: int)
    ensures DetectedRoute(records, Notify(m), at).0 == ObserveMatch(records, m, at)
    ensures var i := FirstOf(records, m.stealthPubkey);
            DetectedRoute(records, Notify(m), at).1
            == if i < |records| then Done(ObserveMatch(records, m, at)[i]) else NotFound
  {
    hide ToHex, Encode, BytesToHex, FirstWith, FirstOf, ParseState, StateName, JsNumber;
    KeyTextIsHex(m.stealthPubkey);
    StateNameParses(m.state);
    FirstWithIsFirstOf(records, m.stealthPubkey);
  }
}
