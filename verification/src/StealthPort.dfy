// The TypeScript port of the derivation, with the loops it is written in and
// the refusals of its curve library.
module StealthPort {
  import opened Wrappers
  import opened Keys
  import opened Ledger
  import opened Curve
  import opened Stealth

  function Flatten(parts: seq<seq<Byte>>): seq<Byte> {
    if parts == [] then [] else Flatten(parts[..|parts| - 1]) + parts[|parts| - 1]
  }

  lemma {:induction false} FlattenPrefix(parts: seq<seq<Byte>>, i: nat)
    requires i <= |parts|
    ensures |Flatten(parts[..i])| <= |Flatten(parts)|
  {
    if i < |parts| {
      var init := parts[..|parts| - 1];
      assert init[..i] == parts[..i];
      FlattenPrefix(init, i);
    } else {
      assert parts[..i] == parts;
    }
  }

  method Concat(parts: seq<seq<Byte>>) returns (out: array<Byte>)
    ensures fresh(out) && out[..] == Flatten(parts)
  {
    var total := 0;
    for i := 0 to |parts|
      invariant total == |Flatten(parts[..i])|
    {
      assert parts[..i + 1][..i] == parts[..i];
      total := total + |parts[i]|;
    }
    assert parts[..|parts|] == parts;
    out := new Byte[total](_ => 0);
    var off := 0;
    for i := 0 to |parts|
      invariant off == |Flatten(parts[..i])| <= out.Length
      invariant out[..off] == Flatten(parts[..i])
    {
      assert parts[..i + 1][..i] == parts[..i];
      FlattenPrefix(parts, i + 1);
      var part := parts[i];
      forall k | 0 <= k < |part| {
        out[off + k] := part[k];
      }
      assert out[..off + |part|] == out[..off] + part;
      off := off + |part|;
    }
    assert parts[..|parts|] == parts;
  }

  // The backward loop both scalar readers use.
  method LittleEndian(bytes: seq<Byte>) returns (n: nat)
    ensures n == LeValue(bytes)
  {
    n := 0;
    var i := |bytes| - 1;
    while i >= 0
      invariant -1 <= i < |bytes|
      invariant n == LeValue(bytes[i + 1..])
    {
      assert bytes[i..][1..] == bytes[i + 1..];
      n := n * 256 + bytes[i];
      i := i - 1;
    }
    assert bytes[0..] == bytes;
  }

  method ScalarFromBytesWide(bytes: seq<Byte>) returns (r: Option<Scalar>)
    ensures r.Some? <==> |bytes| == 64
    ensures r.Some? ==> r.value == ScalarFromWide(bytes)
  {
    if |bytes| != 64 {
      return None;
    }
    var n := LittleEndian(bytes);
    return Some(n % ORDER);
  }

  // The curve library refuses a zero scalar, and key bytes that are not the
  // encoding of the point they decode to.
  function Multiply<P>(c: Curve<P>, n: Scalar, p: P): Option<P> {
    if n == 0 then None else Some(c.mul(n, p))
  }

  method HashPointBytes<P>(c: Curve<P>, domain: seq<Byte>, pointBytes: seq<Byte>) returns (r: Key32)
    ensures r == c.sha512(domain + pointBytes)[..32]
  {
    var input := Concat([domain, pointBytes]);
    FlattenTwo(domain, pointBytes);
    r := c.sha512(input[..])[..32];
  }

  lemma FlattenTwo(a: seq<Byte>, b: seq<Byte>)
    ensures Flatten([a, b]) == a + b
  {
    assert [a, b][..1] == [a];
    assert [a][..0] == [];
    assert Flatten([a]) == [] + a;
  }

  lemma FlattenThree(a: seq<Byte>, b: seq<Byte>, c: seq<Byte>)
    ensures Flatten([a, b, c]) == a + b + c
  {
    assert [a, b, c][..2] == [a, b];
    FlattenTwo(a, b);
  }

  // `setBigUint64` keeps the low 64 bits of the nonce.
  method ScalarFromHashBytes<P>(c: Curve<P>, domain: seq<Byte>, shared: Key32, nonce: nat) returns (r: Scalar)
    ensures r == ScalarFromHash(c, domain, shared, nonce % (U64_MAX + 1))
  {
    var nonceBytes := LeBytes(nonce % (U64_MAX + 1), 8);
    var input := Concat([domain, shared, nonceBytes]);
    FlattenThree(domain, shared, nonceBytes);
    var wide := c.sha512(input[..]);
    var scalar := ScalarFromBytesWide(wide);
    r := scalar.value;
  }

  ghost predicate IsCanonical<P>(c: Curve<P>, bytes: seq<Byte>) {
    |bytes| == 32 && c.decompress(bytes).Some? && c.compress(c.decompress(bytes).value) == bytes
  }

  // The scalars the port must be able to multiply by.
  ghost predicate NonZeroScalars<P>(c: Curve<P>, viewPub: Key32, seed: Wide, nonce: U64)
    requires c.decompress(viewPub).Some?
  {
    var r := ScalarFromWide(seed);
    r != 0 && Offset(c, HashPoint(c, DOMAIN_SHARED, c.mul(r, c.decompress(viewPub).value)), nonce) != 0
  }

  const ZERO_SEED: Wide := seq(64, i => 0)

  lemma {:induction false} LeZeros(bytes: seq<Byte>)
    requires forall i :: 0 <= i < |bytes| ==> bytes[i] == 0
    ensures LeValue(bytes) == 0
  {
    if bytes != [] {
      LeZeros(bytes[1..]);
    }
  }

  // The Rust derivation answers for the zero seed, with the identity as the
  // ephemeral point; the port refuses it.
  lemma ZeroSeedIsRefused<P(!new)>(c: Curve<P>, spendPub: P, viewPub: Key32, nonce: U64)
    requires Lawful(c) && c.decompress(viewPub).Some?
    ensures !NonZeroScalars(c, viewPub, ZERO_SEED, nonce)
    ensures Derive(c, spendPub, c.decompress(viewPub).value, ZERO_SEED, nonce).ephemeral == c.compress(c.zero)
  {
    LeZeros(ZERO_SEED);
  }

  // The port succeeds exactly on 64-byte seeds, canonical keys and non-zero
  // scalars, and then its three outputs are the Rust derivation's, byte for byte.
  method DeriveDeterministic<P>(c: Curve<P>, spendPub: seq<Byte>, viewPub: seq<Byte>, seed: seq<Byte>, nonce: nat)
    returns (r: Option<StealthAddress>)
    ensures r.Some? <==>
              && |seed| == 64 && IsCanonical(c, viewPub) && IsCanonical(c, spendPub)
              && NonZeroScalars(c, viewPub, seed, nonce % (U64_MAX + 1))
    ensures r.Some? ==>
              r.value == Derive(c, c.decompress(spendPub).value, c.decompress(viewPub).value, seed,
                                nonce % (U64_MAX + 1))
  {
    var k := ScalarFromBytesWide(seed);
    if k.None? {
      return None;
    }
    var rPub := Multiply(c, k.value, c.base);
    if rPub.None? {
      return None;
    }
    var viewPoint := FromHexBytes(c, viewPub);
    if viewPoint.None? {
      return None;
    }
    var sharedPoint := Multiply(c, k.value, viewPoint.value);
    if sharedPoint.None? {
      return None;
    }
    var shared := HashPointBytes(c, DOMAIN_SHARED, c.compress(sharedPoint.value));
    var offset := ScalarFromHashBytes(c, DOMAIN_OFFSET, shared, nonce);
    var offsetPoint := Multiply(c, offset, c.base);
    if offsetPoint.None? {
      return None;
    }
    var spendPoint := FromHexBytes(c, spendPub);
    if spendPoint.None? {
      return None;
    }
    var stealthPoint := c.add(spendPoint.value, offsetPoint.value);
    var tag := c.sha512(DOMAIN_VIEW_TAG + shared)[0];
    return Some(StealthAddress(c.compress(stealthPoint), c.compress(rPub.value), tag));
  }

  method FromHexBytes<P>(c: Curve<P>, bytes: seq<Byte>) returns (r: Option<P>)
    ensures r.Some? <==> IsCanonical(c, bytes)
    ensures r.Some? ==> r == c.decompress(bytes)
  {
    if |bytes| != 32 {
      return None;
    }
    r := c.decompress(bytes);
    if r.Some? && c.compress(r.value) != bytes {
      return None;
    }
  }

  method PublicKeyFromScalar<P>(c: Curve<P>, bytes: seq<Byte>) returns (r: Option<Key32>)
    ensures r.Some? <==> |bytes| == 32 && LeValue(bytes) % ORDER != 0
    ensures r.Some? ==> r.value == c.compress(PublicKey(c, LeValue(bytes) % ORDER))
  {
    if |bytes| != 32 {
      return None;
    }
    var n := LittleEndian(bytes);
    var point := Multiply(c, n % ORDER, c.base);
    return if point.None? then None else Some(c.compress(point.value));
  }
}
