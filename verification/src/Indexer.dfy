// The indexer: which slice a deposit account belongs to, and one pass over all
// accounts of the program.
module Indexer {
  import opened Wrappers
  import opened Keys
  import opened Ledger
  import opened Curve
  import opened Stealth
  import opened StealthSeparation
  import V = Vault

  datatype Slice<P> = Slice(sliceId: U64, viewKey: Scalar, spendPub: P, nonce: U64)

  datatype PaymentMatch = PaymentMatch(
    sliceId: U64,
    depositPubkey: Address,
    stealthPubkey: Key32,
    amount: U64,
    state: V.DepositState)

  // A program account; None when its data does not decode as a deposit.
  datatype Account = Account(pubkey: Address, data: Option<V.Deposit>)

  function MatchOf<P>(slice: Slice<P>, pubkey: Address, d: V.Deposit): PaymentMatch {
    PaymentMatch(slice.sliceId, pubkey, d.stealth, d.amount, d.state)
  }

  function ScanSlice<P>(c: Curve<P>, slice: Slice<P>, d: V.Deposit): Result<ScanResult, StealthError> {
    ScanDeposit(c, slice.viewKey, slice.spendPub, d.stealth, d.ephemeral, d.viewTag, slice.nonce)
  }

  // The registered slices in order; the first match ends the search.
  function Scan<P>(c: Curve<P>, slices: seq<Slice<P>>, pubkey: Address, d: V.Deposit)
    : Result<Option<PaymentMatch>, StealthError>
  {
    if slices == [] then Ok(None)
    else
      var result :- ScanSlice(c, slices[0], d);
      if result.matched then Ok(Some(MatchOf(slices[0], pubkey, d)))
      else Scan(c, slices[1..], pubkey, d)
  }

  class Indexer<P> {
    const curve: Curve<P>
    var slices: seq<Slice<P>>

    constructor (curve: Curve<P>)
      ensures this.curve == curve && slices == []
    {
      this.curve := curve;
      slices := [];
    }

    method Register(slice: Slice<P>)
      modifies this
      ensures slices == old(slices) + [slice]
    {
      slices := slices + [slice];
    }

    // One pass: undecodable accounts are skipped, the first failing scan ends
    // the pass, matches are collected in account order.
    method ScanProgramAccounts(accounts: seq<Account>) returns (r: Result<seq<PaymentMatch>, StealthError>)
      ensures r == ScanPass(curve, slices, accounts)
    {
      var matches: seq<PaymentMatch> := [];
      for i := 0 to |accounts|
        invariant ScanPass(curve, slices, accounts[..i]) == Ok(matches)
      {
        assert accounts[..i + 1][..i] == accounts[..i];
        if accounts[i].data.None? {
          continue;
        }
        var found := Scan(curve, slices, accounts[i].pubkey, accounts[i].data.value);
        if found.Err? {
          PassFails(curve, slices, accounts, i + 1);
          return Err(found.error);
        }
        if found.value.Some? {
          matches := matches + [found.value.value];
        }
      }
      assert accounts[..|accounts|] == accounts;
      return Ok(matches);
    }
  }

  function ScanPass<P>(c: Curve<P>, slices: seq<Slice<P>>, accounts: seq<Account>)
    : Result<seq<PaymentMatch>, StealthError>
  {
    if accounts == [] then Ok([])
    else
      var matches :- ScanPass(c, slices, accounts[..|accounts| - 1]);
      var last := accounts[|accounts| - 1];
      if last.data.None? then Ok(matches)
      else
        var found :- Scan(c, slices, last.pubkey, last.data.value);
        if found.None? then Ok(matches) else Ok(matches + [found.value])
  }

  lemma {:induction false} PassFails<P>(c: Curve<P>, slices: seq<Slice<P>>, accounts: seq<Account>, i: nat)
    requires i <= |accounts| && ScanPass(c, slices, accounts[..i]).Err?
    ensures ScanPass(c, slices, accounts) == ScanPass(c, slices, accounts[..i])
  {
    if i == |accounts| {
      assert accounts[..i] == accounts;
    } else {
      var init := accounts[..|accounts| - 1];
      assert init[..i] == accounts[..i];
      PassFails(c, slices, init, i);
    }
  }

  // -------------------------------------------------------------------------
  // What a scan and a pass find

  ghost predicate MatchesSlice<P>(c: Curve<P>, slice: Slice<P>, d: V.Deposit) {
    var r := ScanDeposit(c, slice.viewKey, slice.spendPub, d.stealth, d.ephemeral, d.viewTag, slice.nonce);
    r.Ok? && r.value.matched
  }

  // Slice i is the first that matches.
  ghost predicate FirstMatch<P>(c: Curve<P>, slices: seq<Slice<P>>, d: V.Deposit, i: nat) {
    && i < |slices| && MatchesSlice(c, slices[i], d)
    && forall j :: 0 <= j < i ==> !MatchesSlice(c, slices[j], d)
  }

  // The match names the slice and repeats the deposit.
  ghost predicate Reports<P>(m: PaymentMatch, slice: Slice<P>, pubkey: Address, d: V.Deposit) {
    && m.sliceId == slice.sliceId && m.depositPubkey == pubkey
    && m.stealthPubkey == d.stealth && m.amount == d.amount && m.state == d.state
  }

  // A slice can be tried iff the ephemeral bytes are a point.
  lemma {:induction false} ScanFails<P>(c: Curve<P>, slices: seq<Slice<P>>, pubkey: Address, d: V.Deposit)
    ensures Scan(c, slices, pubkey, d).Err? <==> slices != [] && c.decompress(d.ephemeral).None?
  {
    if slices != [] && c.decompress(d.ephemeral).Some? {
      ScanFails(c, slices[1..], pubkey, d);
    }
  }

  // A scan fails iff there is a slice to try and the ephemeral bytes are no
  // point; otherwise it reports the first slice, in registration order, that
  // matches.
  lemma {:induction false} ScanFindsFirst<P>(c: Curve<P>, slices: seq<Slice<P>>, pubkey: Address, d: V.Deposit)
    returns (first: nat)
    ensures var r := Scan(c, slices, pubkey, d);
            && (r.Err? <==> slices != [] && c.decompress(d.ephemeral).None?)
            && (r.Ok? && r.value.None? ==> forall i :: 0 <= i < |slices| ==> !MatchesSlice(c, slices[i], d))
            && (r.Ok? && r.value.Some? ==>
                  FirstMatch(c, slices, d, first) && Reports(r.value.value, slices[first], pubkey, d))
  {
    hide ScanDeposit;
    first := 0;
    if slices != [] && !MatchesSlice(c, slices[0], d) {
      var next := ScanFindsFirst(c, slices[1..], pubkey, d);
      first := next + 1;
      assert forall i :: 1 <= i < |slices| ==> slices[i] == slices[1..][i - 1];
    }
    ScanFails(c, slices, pubkey, d);
  }

  predicate Decodable<P>(c: Curve<P>, accounts: seq<Account>) {
    forall i :: 0 <= i < |accounts| && accounts[i].data.Some? ==> c.decompress(accounts[i].data.value.ephemeral).Some?
  }

  // The account an entry of the result came from.
  ghost predicate FoundAt<P>(c: Curve<P>, slices: seq<Slice<P>>, a: Account, m: PaymentMatch) {
    a.data.Some? && Scan(c, slices, a.pubkey, a.data.value) == Ok(Some(m))
  }

  ghost predicate Increasing(at: seq<nat>) {
    forall i, j :: 0 <= i < j < |at| ==> at[i] < at[j]
  }

  // The entries of a pass are the matches at the accounts `at`.
  ghost predicate ListsMatches<P>(c: Curve<P>, slices: seq<Slice<P>>, accounts: seq<Account>,
                                  matches: seq<PaymentMatch>, at: seq<nat>)
  {
    && |at| == |matches| && Increasing(at)
    && (forall k :: 0 <= k < |at| ==> at[k] < |accounts| && FoundAt(c, slices, accounts[at[k]], matches[k]))
    && (forall i, m :: 0 <= i < |accounts| && FoundAt(c, slices, accounts[i], m) ==> i in at)
  }

  lemma ListsMatchesSnoc<P>(c: Curve<P>, slices: seq<Slice<P>>, accounts: seq<Account>, last: Account,
                            matches: seq<PaymentMatch>, at: seq<nat>)
    requires ListsMatches(c, slices, accounts, matches, at)
    ensures (forall m :: !FoundAt(c, slices, last, m)) ==> ListsMatches(c, slices, accounts + [last], matches, at)
    ensures forall m :: FoundAt(c, slices, last, m) ==>
              ListsMatches(c, slices, accounts + [last], matches + [m], at + [|accounts|])
  {
    var all := accounts + [last];
    assert forall i :: 0 <= i < |accounts| ==> all[i] == accounts[i];
    forall m | FoundAt(c, slices, last, m) ensures ListsMatches(c, slices, all, matches + [m], at + [|accounts|]) {
      var longer := at + [|accounts|];
      assert longer[|at|] == |accounts|;
      assert forall i :: i in at ==> i in longer;
    }
  }

  // A pass succeeds iff there is no slice to try or the ephemeral bytes of every
  // decodable deposit are a point; and then it lists, in account order, the match
  // of every account that has one and nothing else.
  lemma {:induction false} PassRefines<P>(c: Curve<P>, slices: seq<Slice<P>>, accounts: seq<Account>)
    returns (at: seq<nat>)
    ensures ScanPass(c, slices, accounts).Ok? <==> slices == [] || Decodable(c, accounts)
    ensures ScanPass(c, slices, accounts).Ok? ==>
              ListsMatches(c, slices, accounts, ScanPass(c, slices, accounts).value, at)
  {
    at := [];
    if accounts != [] {
      var init, last := accounts[..|accounts| - 1], accounts[|accounts| - 1];
      at := PassRefines(c, slices, init);
      if last.data.Some? {
        var _ := ScanFindsFirst(c, slices, last.pubkey, last.data.value);
      }
      assert Decodable(c, accounts)
        <==> Decodable(c, init) && (last.data.Some? ==> c.decompress(last.data.value.ephemeral).Some?);
      if ScanPass(c, slices, accounts).Ok? {
        assert accounts == init + [last];
        ListsMatchesSnoc(c, slices, init, last, ScanPass(c, slices, init).value, at);
        if last.data.Some? && Scan(c, slices, last.pubkey, last.data.value).value.Some? {
          assert FoundAt(c, slices, last, Scan(c, slices, last.pubkey, last.data.value).value.value);
          at := at + [|init|];
        }
      }
    }
  }

  // Every entry of a pass names the first slice, in registration order, that
  // matches the deposit of its account.
  lemma PassNamesSlices<P>(c: Curve<P>, slices: seq<Slice<P>>, accounts: seq<Account>, k: nat)
    returns (at: nat, i: nat)
    requires ScanPass(c, slices, accounts).Ok? && k < |ScanPass(c, slices, accounts).value|
    ensures at < |accounts| && accounts[at].data.Some?
    ensures var m, d := ScanPass(c, slices, accounts).value[k], accounts[at].data.value;
            FirstMatch(c, slices, d, i) && Reports(m, slices[i], accounts[at].pubkey, d)
  {
    var all := PassRefines(c, slices, accounts);
    at := all[k];
    assert FoundAt(c, slices, accounts[at], ScanPass(c, slices, accounts).value[k]);
    i := ScanFindsFirst(c, slices, accounts[at].pubkey, accounts[at].data.value);
  }

  // Without the view-tag pre-filter.
  ghost predicate DerivesTo<P>(c: Curve<P>, slice: Slice<P>, d: V.Deposit) {
    var shared := SharedSecret(c, slice.viewKey, d.ephemeral);
    shared.Ok? && DeriveForRecipient(c, slice.spendPub, shared.value, slice.nonce) == d.stealth
  }

  ghost predicate CorrectTag<P>(c: Curve<P>, slice: Slice<P>, d: V.Deposit) {
    var shared := SharedSecret(c, slice.viewKey, d.ephemeral);
    shared.Ok? && ViewTag(c, shared.value) == d.viewTag
  }

  // The search by derived key alone, without looking at the tag.
  function ScanUnfiltered<P>(c: Curve<P>, slices: seq<Slice<P>>, pubkey: Address, d: V.Deposit)
    : Result<Option<PaymentMatch>, StealthError>
  {
    if slices == [] then Ok(None)
    else
      var shared :- SharedSecret(c, slices[0].viewKey, d.ephemeral);
      if DeriveForRecipient(c, slices[0].spendPub, shared, slices[0].nonce) == d.stealth
      then Ok(Some(MatchOf(slices[0], pubkey, d)))
      else ScanUnfiltered(c, slices[1..], pubkey, d)
  }

  // On a deposit whose tag is right for every slice that derives to it, the
  // view-tag filter removes no match and changes no result.
  lemma {:induction false} FilterRemovesNothing<P>(c: Curve<P>, slices: seq<Slice<P>>, pubkey: Address, d: V.Deposit)
    requires forall i :: 0 <= i < |slices| && DerivesTo(c, slices[i], d) ==> CorrectTag(c, slices[i], d)
    ensures Scan(c, slices, pubkey, d) == ScanUnfiltered(c, slices, pubkey, d)
  {
    if slices != [] {
      assert DerivesTo(c, slices[0], d) ==> CorrectTag(c, slices[0], d);
      FilterRemovesNothing(c, slices[1..], pubkey, d);
    }
  }

  // A deposit made for a registered slice is always found, whatever was
  // registered before it; the match names the first slice that matches, which is
  // that slice unless an earlier one matches too.
  lemma HonestDepositIsFound<P(!new)>(c: Curve<P>, slices: seq<Slice<P>>, i: nat, spend: Scalar, seed: Wide,
                                      pubkey: Address, d: V.Deposit) returns (first: nat)
    requires Lawful(c) && i < |slices| && slices[i].spendPub == PublicKey(c, spend)
    requires StealthAddress(d.stealth, d.ephemeral, d.viewTag)
             == Derive(c, slices[i].spendPub, PublicKey(c, slices[i].viewKey), seed, slices[i].nonce)
    ensures first <= i && FirstMatch(c, slices, d, first)
    ensures Scan(c, slices, pubkey, d)
            == Ok(Some(PaymentMatch(slices[first].sliceId, pubkey, d.stealth, d.amount, d.state)))
    ensures (forall j :: 0 <= j < i ==> !MatchesSlice(c, slices[j], d)) ==> first == i
  {
    SenderRecipientRoundTrip(c, spend, slices[i].viewKey, seed, slices[i].nonce);
    assert MatchesSlice(c, slices[i], d);
    first := ScanFindsFirst(c, slices, pubkey, d);
  }

  // The hash collides on what two slices with one spend key make of a seed.
  ghost predicate SlicesCollide<P>(c: Curve<P>, slice: Slice<P>, slice2: Slice<P>, r: Scalar) {
    var p, p2 := c.mul(r, PublicKey(c, slice.viewKey)), c.mul(r, PublicKey(c, slice2.viewKey));
    || SecretsCollide(c, SharedInput(c, p), SharedInput(c, p2))
    || ScalarsCollide(c, OffsetInput(Secret(c, p), slice.nonce), OffsetInput(Secret(c, p2), slice2.nonce))
  }

  // Among slices of one spend key, each with its own view key or nonce, the match
  // names the slice the deposit was made for, unless the hash collides.
  lemma HonestDepositIsNamed<P(!new)>(c: Curve<P>, slices: seq<Slice<P>>, i: nat, spend: Scalar, seed: Wide,
                                      inverse: nat, pubkey: Address, d: V.Deposit)
    requires Lawful(c) && i < |slices| && (inverse * ScalarFromWide(seed)) % ORDER == 1
    requires forall j :: 0 <= j <= i ==> slices[j].spendPub == PublicKey(c, spend)
    requires forall j :: 0 <= j < i ==> slices[j].viewKey != slices[i].viewKey || slices[j].nonce != slices[i].nonce
    requires StealthAddress(d.stealth, d.ephemeral, d.viewTag)
             == Derive(c, slices[i].spendPub, PublicKey(c, slices[i].viewKey), seed, slices[i].nonce)
    ensures || Scan(c, slices, pubkey, d)
               == Ok(Some(PaymentMatch(slices[i].sliceId, pubkey, d.stealth, d.amount, d.state)))
            || exists j :: 0 <= j < i && SlicesCollide(c, slices[i], slices[j], ScalarFromWide(seed))
  {
    var first := HonestDepositIsFound(c, slices, i, spend, seed, pubkey, d);
    if first < i {
      OnlyItsViewKeyMatches(c, spend, slices[i].viewKey, seed, slices[i].nonce,
                            slices[first].viewKey, slices[first].nonce, inverse);
      assert SlicesCollide(c, slices[i], slices[first], ScalarFromWide(seed));
    }
  }
}
