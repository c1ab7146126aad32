// Stealth addresses: what the sender derives, what the recipient's view key
// recognises and what the spend key can spend.
module Stealth {
  import opened Wrappers
  import opened Keys
  import opened Ledger
  import opened Curve

  function Ascii(s: string): seq<Byte> {
    seq(|s|, i requires 0 <= i < |s| => s[i] as int % 256)
  }

  const DOMAIN_SHARED: seq<Byte> := Ascii("g-pay/stealth/shared/v1")
  const DOMAIN_OFFSET: seq<Byte> := Ascii("g-pay/stealth/offset/v1")
  const DOMAIN_VIEW_TAG: seq<Byte> := Ascii("g-pay/stealth/view-tag/v1")

  type Scalar = n: nat | n < ORDER

  function ScalarFromWide(wide: Wide): Scalar {
    LeValue(wide) % ORDER
  }

  function PublicKey<P>(c: Curve<P>, secret: Scalar): P {
    c.mul(secret, c.base)
  }

  datatype StealthAddress = StealthAddress(stealth: Key32, ephemeral: Key32, viewTag: Byte)

  datatype StealthError = InvalidPoint

  function HashPoint<P>(c: Curve<P>, domain: seq<Byte>, point: P): Key32 {
    c.sha512(domain + c.compress(point))[..32]
  }

  function ScalarFromHash<P>(c: Curve<P>, domain: seq<Byte>, shared: Key32, nonce: U64): Scalar {
    ScalarFromWide(c.sha512(domain + shared + LeBytes(nonce, 8)))
  }

  function ViewTag<P>(c: Curve<P>, shared: Key32): Byte {
    c.sha512(DOMAIN_VIEW_TAG + shared)[0]
  }

  function Offset<P>(c: Curve<P>, shared: Key32, nonce: U64): Scalar {
    ScalarFromHash(c, DOMAIN_OFFSET, shared, nonce)
  }

  function Derive<P>(c: Curve<P>, spendPub: P, viewPub: P, seed: Wide, nonce: U64): StealthAddress {
    var r := ScalarFromWide(seed);
    var shared := HashPoint(c, DOMAIN_SHARED, c.mul(r, viewPub));
    var offsetPoint := c.mul(Offset(c, shared, nonce), c.base);
    StealthAddress(c.compress(c.add(spendPub, offsetPoint)), c.compress(c.mul(r, c.base)), ViewTag(c, shared))
  }

  function ReconstructSpendScalar<P>(c: Curve<P>, spend: Scalar, view: Scalar, ephemeral: Key32, nonce: U64)
    : Result<Scalar, StealthError>
  {
    match c.decompress(ephemeral)
    case None => Err(InvalidPoint)
    case Some(point) =>
      var shared := HashPoint(c, DOMAIN_SHARED, c.mul(view, point));
      Ok((spend + Offset(c, shared, nonce)) % ORDER)
  }

  function SharedSecret<P>(c: Curve<P>, view: Scalar, ephemeral: Key32): Result<Key32, StealthError> {
    match c.decompress(ephemeral)
    case None => Err(InvalidPoint)
    case Some(point) => Ok(HashPoint(c, DOMAIN_SHARED, c.mul(view, point)))
  }

  function DeriveForRecipient<P>(c: Curve<P>, spendPub: P, shared: Key32, nonce: U64): Key32 {
    c.compress(c.add(spendPub, c.mul(Offset(c, shared, nonce), c.base)))
  }

  datatype ScanResult = ScanResult(matched: bool, stealth: Key32)

  function ScanDeposit<P>(c: Curve<P>, view: Scalar, spendPub: P, candidate: Key32, ephemeral: Key32, chainTag: Byte,
                          nonce: U64)
    : Result<ScanResult, StealthError>
  {
    var shared :- SharedSecret(c, view, ephemeral);
    if ViewTag(c, shared) != chainTag then Ok(ScanResult(false, candidate))
    else
      var derived := DeriveForRecipient(c, spendPub, shared, nonce);
      Ok(ScanResult(derived == candidate, derived))
  }

  // -------------------------------------------------------------------------

  // The reconstructed scalar belongs to the sum of the spend key and the offset.
  lemma ReconstructedKey<P(!new)>(c: Curve<P>, spend: Scalar, offset: Scalar)
    requires Lawful(c)
    ensures c.mul((spend + offset) % ORDER, c.base) == c.add(PublicKey(c, spend), c.mul(offset, c.base))
  {
    MulReduced(c, spend + offset);
    MulSum(c, spend, offset, c.base);
  }

  // A sender and a recipient who never meet agree: for all keys, seeds and
  // nonces the derived address is recognised, as itself, and the reconstructed
  // scalar is its secret key.
  lemma SenderRecipientRoundTrip<P(!new)>(c: Curve<P>, spend: Scalar, view: Scalar, seed: Wide, nonce: U64)
    requires Lawful(c)
    ensures var a := Derive(c, PublicKey(c, spend), PublicKey(c, view), seed, nonce);
            && ScanDeposit(c, view, PublicKey(c, spend), a.stealth, a.ephemeral, a.viewTag, nonce)
               == Ok(ScanResult(true, a.stealth))
            && var x := ReconstructSpendScalar(c, spend, view, a.ephemeral, nonce);
               x.Ok? && c.compress(PublicKey(c, x.value)) == a.stealth
  {
    var r := ScalarFromWide(seed);
    MulCommutes(c, r, view, c.base);
    assert Survives(c, c.mul(r, c.base));
    var shared := HashPoint(c, DOMAIN_SHARED, c.mul(r, PublicKey(c, view)));
    ReconstructedKey(c, spend, Offset(c, shared, nonce));
  }

  // A match means spendable: for any ephemeral bytes and any candidate, honest
  // or not, the scan matches iff the tag is right and the candidate is the
  // public key of the scalar the spend key reconstructs; with a right tag that
  // key is what the scan reports, with a wrong one the candidate; both fail
  // together when the ephemeral bytes are not a point.
  lemma MatchIsSpendable<P(!new)>(c: Curve<P>, spend: Scalar, view: Scalar, candidate: Key32, ephemeral: Key32,
                                  tag: Byte, nonce: U64)
    requires Lawful(c)
    ensures var scan := ScanDeposit(c, view, PublicKey(c, spend), candidate, ephemeral, tag, nonce);
            var x := ReconstructSpendScalar(c, spend, view, ephemeral, nonce);
            && (scan.Err? <==> x.Err?)
            && (scan.Ok? ==>
                  var tagged := ViewTag(c, SharedSecret(c, view, ephemeral).value) == tag;
                  var key := c.compress(PublicKey(c, x.value));
                  && (scan.value.matched <==> tagged && key == candidate)
                  && scan.value.stealth == if tagged then key else candidate)
  {
    if c.decompress(ephemeral).Some? {
      var shared := SharedSecret(c, view, ephemeral).value;
      ReconstructedKey(c, spend, Offset(c, shared, nonce));
    }
  }
}
