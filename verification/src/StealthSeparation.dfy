// Whom a stealth address is for: what the hash inputs hold, and that another view
// key or another nonce does not match unless the hash collides.
module StealthSeparation {
  import opened Wrappers
  import opened Keys
  import opened Ledger
  import opened Radix
  import opened Curve
  import opened Stealth

  // -------------------------------------------------------------------------
  // The three hash inputs, written out

  function SharedInput<P>(c: Curve<P>, point: P): seq<Byte> {
    Ascii("g-pay/stealth/shared/v1") + c.compress(point)
  }

  function OffsetInput(shared: Key32, nonce: U64): seq<Byte> {
    Ascii("g-pay/stealth/offset/v1") + shared + LeBytes(nonce, 8)
  }

  function TagInput(shared: Key32): seq<Byte> {
    Ascii("g-pay/stealth/view-tag/v1") + shared
  }

  function Secret<P>(c: Curve<P>, point: P): Key32 {
    c.sha512(SharedInput(c, point))[..32]
  }

  function OffsetAt<P>(c: Curve<P>, point: P, nonce: U64): Scalar {
    LeValue(c.sha512(OffsetInput(Secret(c, point), nonce))) % ORDER
  }

  function TagAt<P>(c: Curve<P>, point: P): Byte {
    c.sha512(TagInput(Secret(c, point)))[0]
  }

  lemma LeBytesInjective(m: U64, n: U64)
    requires LeBytes(m, 8) == LeBytes(n, 8)
    ensures m == n
  {
    assert Pow(256, 4) == 256 * (256 * (256 * 256));
    PowStep(4);
    LeRoundTrip(m, 8);
    LeRoundTrip(n, 8);
  }

  // The inputs tell their kinds apart, and within a kind the points, the secrets and
  // the nonces.
  lemma InputsSeparate<P(!new)>(c: Curve<P>, p: P, p2: P, s: Key32, s2: Key32, nonce: U64, nonce2: U64)
    requires Lawful(c)
    ensures SharedInput(c, p) == SharedInput(c, p2) <==> p == p2
    ensures OffsetInput(s, nonce) == OffsetInput(s2, nonce2) <==> s == s2 && nonce == nonce2
    ensures TagInput(s) == TagInput(s2) <==> s == s2
    ensures SharedInput(c, p) != OffsetInput(s, nonce) && SharedInput(c, p) != TagInput(s)
    ensures OffsetInput(s, nonce) != TagInput(s2)
  {
    assert Survives(c, p) && Survives(c, p2);
    assert SharedInput(c, p)[23..] == c.compress(p) && SharedInput(c, p2)[23..] == c.compress(p2);
    assert TagInput(s)[25..] == s && TagInput(s2)[25..] == s2;
    var x, y := OffsetInput(s, nonce), OffsetInput(s2, nonce2);
    assert x[23..55] == s && y[23..55] == s2 && x[55..] == LeBytes(nonce, 8) && y[55..] == LeBytes(nonce2, 8);
    if x == y {
      LeBytesInjective(nonce, nonce2);
    }
  }

  // -------------------------------------------------------------------------
  // Which multiples of the base meet

  lemma Cancels<P(!new)>(c: Curve<P>, n: Scalar, x: P, y: P)
    requires Lawful(c) && c.add(c.mul(n, c.base), x) == c.add(c.mul(n, c.base), y)
    ensures x == y
  {
    var p, inverse := c.mul(n, c.base), c.mul(ORDER - n, c.base);
    MulSum(c, ORDER - n, n, c.base);
    assert Associates(c, inverse, p, x) && Associates(c, inverse, p, y);
    assert Commutes(c, c.zero, x) && Commutes(c, c.zero, y);
  }

  // A scalar with an inverse modulo ORDER can be cancelled.
  lemma ScalarCancels<P(!new)>(c: Curve<P>, r: Scalar, inverse: nat, m: Scalar, n: Scalar)
    requires Lawful(c) && (inverse * r) % ORDER == 1
    requires c.mul(r, c.mul(m, c.base)) == c.mul(r, c.mul(n, c.base))
    ensures m == n
  {
    UndoScalar(c, r, inverse, m);
    UndoScalar(c, r, inverse, n);
    assert Separate(c, m, n);
  }

  lemma UndoScalar<P(!new)>(c: Curve<P>, r: Scalar, inverse: nat, m: Scalar)
    requires Lawful(c) && (inverse * r) % ORDER == 1
    ensures c.mul(inverse, c.mul(r, c.mul(m, c.base))) == c.mul(m, c.base)
  {
    var p := c.mul(m, c.base);
    MulProduct(c, inverse, r, p);
    MulCommutes(c, inverse * r, m, c.base);
    MulReduced(c, inverse * r);
    assert Steps(c, 0, c.base);
  }

  // -------------------------------------------------------------------------
  // Who matches an honest address

  // The derivation, with every hash input in sight.
  lemma DerivedFrom<P>(c: Curve<P>, spendPub: P, viewPub: P, seed: Wide, nonce: U64)
    ensures var r := LeValue(seed) % ORDER;
            var point := c.mul(r, viewPub);
            Derive(c, spendPub, viewPub, seed, nonce)
            == StealthAddress(c.compress(c.add(spendPub, c.mul(OffsetAt(c, point, nonce), c.base))),
                              c.compress(c.mul(r, c.base)),
                              TagAt(c, point))
  {
  }

  // The scan of an address derived for one view key and nonce with another view key
  // and nonce of the same spend key.
  function ScanWith<P>(c: Curve<P>, spend: Scalar, view: Scalar, seed: Wide, nonce: U64, view2: Scalar, nonce2: U64)
    : Result<ScanResult, StealthError>
  {
    var a := Derive(c, PublicKey(c, spend), PublicKey(c, view), seed, nonce);
    ScanDeposit(c, view2, PublicKey(c, spend), a.stealth, a.ephemeral, a.viewTag, nonce2)
  }

  // It matches iff the tags and the offsets of the two
  // shared points are the same.
  lemma ScanOfAnother<P(!new)>(c: Curve<P>, spend: Scalar, view: Scalar, seed: Wide, nonce: U64,
                               view2: Scalar, nonce2: U64)
    requires Lawful(c)
    ensures var scan := ScanWith(c, spend, view, seed, nonce, view2, nonce2);
            var r := LeValue(seed) % ORDER;
            var p, p2 := c.mul(r, PublicKey(c, view)), c.mul(r, PublicKey(c, view2));
            && scan.Ok?
            && (scan.value.matched
                <==> TagAt(c, p) == TagAt(c, p2) && OffsetAt(c, p, nonce) == OffsetAt(c, p2, nonce2))
  {
    var r := LeValue(seed) % ORDER;
    var p, p2 := c.mul(r, PublicKey(c, view)), c.mul(r, PublicKey(c, view2));
    var o, o2 := OffsetAt(c, p, nonce), OffsetAt(c, p2, nonce2);
    assert Survives(c, c.mul(r, c.base));
    MulCommutes(c, view2, r, c.base);
    var q, q2 := c.add(PublicKey(c, spend), c.mul(o, c.base)), c.add(PublicKey(c, spend), c.mul(o2, c.base));
    assert Survives(c, q) && Survives(c, q2);
    if q == q2 {
      Cancels(c, spend, c.mul(o, c.base), c.mul(o2, c.base));
      assert Separate(c, o, o2);
    }
  }

  // Two inputs that differ with the same first 32 bytes of their hashes.
  predicate SecretsCollide<P>(c: Curve<P>, x: seq<Byte>, y: seq<Byte>) {
    x != y && c.sha512(x)[..32] == c.sha512(y)[..32]
  }

  // Two inputs that differ with the same scalar.
  predicate ScalarsCollide<P>(c: Curve<P>, x: seq<Byte>, y: seq<Byte>) {
    x != y && LeValue(c.sha512(x)) % ORDER == LeValue(c.sha512(y)) % ORDER
  }

  // An honest address is matched with the view key and the nonce it was derived for
  // and with no others, unless the hash collides on the two shared points or on the
  // two offset inputs. The seed's scalar must be invertible, as every scalar but
  // zero is modulo a prime.
  lemma OnlyItsViewKeyMatches<P(!new)>(c: Curve<P>, spend: Scalar, view: Scalar, seed: Wide, nonce: U64,
                                       view2: Scalar, nonce2: U64, inverse: nat)
    requires Lawful(c) && (inverse * ScalarFromWide(seed)) % ORDER == 1
    ensures var scan := ScanWith(c, spend, view, seed, nonce, view2, nonce2);
            var r := ScalarFromWide(seed);
            var p, p2 := c.mul(r, PublicKey(c, view)), c.mul(r, PublicKey(c, view2));
            && scan.Ok?
            && (view2 == view && nonce2 == nonce ==> scan.value.matched)
            && (scan.value.matched ==>
                  || (view2 == view && nonce2 == nonce)
                  || SecretsCollide(c, SharedInput(c, p), SharedInput(c, p2))
                  || ScalarsCollide(c, OffsetInput(Secret(c, p), nonce), OffsetInput(Secret(c, p2), nonce2)))
  {
    hide ScanWith, SharedInput, OffsetInput, TagAt;
    var r := ScalarFromWide(seed);
    var p, p2 := c.mul(r, PublicKey(c, view)), c.mul(r, PublicKey(c, view2));
    ScanOfAnother(c, spend, view, seed, nonce, view2, nonce2);
    InputsSeparate(c, p, p2, Secret(c, p), Secret(c, p2), nonce, nonce2);
    if p == p2 {
      ScalarCancels(c, r, inverse, view, view2);
    }
  }

  // -------------------------------------------------------------------------
  // A curve and a hash for which nobody else matches: the residues, and a hash that
  // shows its input where the scheme looks.

  function Padded(s: seq<Byte>): Wide {
    (s + seq(64, i => 0))[..64]
  }

  function PlainHash(input: seq<Byte>): Wide {
    if |input| == 63 then LeBytes(LeValue(input[23..55]) / 8 + LeValue(input[55..]), 64)
    else if |input| == 55 then Padded(input[23..])
    else Padded(input)
  }

  lemma {:induction false} LeValueBound(s: seq<Byte>)
    ensures LeValue(s) < Pow(256, |s|)
  {
    if s != [] {
      LeValueBound(s[1..]);
    }
  }

  lemma SmallFits(n: nat)
    requires n < 2 * ORDER
    ensures n < Pow(256, 64) && n < Pow(256, 32)
  {
    hide Pow;
    ModulusFits();
    PowGrows(32, 32);
  }

  lemma {:induction false} PowGrows(e: nat, more: nat)
    ensures Pow(256, e) <= Pow(256, e + more)
  {
    if more != 0 {
      PowGrows(e, more - 1);
    }
  }

  lemma NonceFits(nonce: U64)
    ensures nonce < Pow(256, 8) && nonce < ORDER
  {
    assert Pow(256, 4) == 256 * (256 * (256 * 256));
    PowStep(4);
  }

  lemma PlainSecret(p: Residue)
    ensures Secret(ResidueCurve(PlainHash), p) == LeBytes(p as int, 32)
    ensures LeValue(LeBytes(p as int, 32)) == p as int
  {
    var c := ResidueCurve(PlainHash);
    assert SharedInput(c, p)[23..] == Compress(p);
    ModulusFits();
    LeRoundTrip(p as int, 32);
  }

  lemma PlainOffsetHash(p: Residue, secret: Key32, nonce: U64)
    requires LeValue(secret) == p as int
    ensures LeValue(PlainHash(OffsetInput(secret, nonce))) == p as int / 8 + nonce
  {
    hide LeBytes, Pow;
    var input := OffsetInput(secret, nonce);
    assert input[23..55] == secret && input[55..] == LeBytes(nonce, 8);
    NonceFits(nonce);
    LeRoundTrip(nonce, 8);
    SmallFits(p as int / 8 + nonce);
    LeRoundTrip(p as int / 8 + nonce, 64);
  }

  lemma PlainOffset(n: nat, nonce: U64)
    ensures MulMod(n, 8) as int == 8 * (n % ORDER)
    ensures OffsetAt(ResidueCurve(PlainHash), MulMod(n, 8), nonce) == (n % ORDER + nonce) % ORDER
  {
    hide Secret, PlainHash, OffsetInput;
    var p := MulMod(n, 8);
    assert p as int == 8 * (n % ORDER);
    PlainSecret(p);
    PlainOffsetHash(p, LeBytes(p as int, 32), nonce);
  }

  // On this curve with this hash an honest address is matched by no other view key
  // with its nonce, and under no other nonce with its view key.
  lemma NobodyElseMatches(spend: Scalar, view: Scalar, seed: Wide, nonce: U64, view2: Scalar, nonce2: U64, inverse: nat)
    requires (inverse * ScalarFromWide(seed)) % ORDER == 1 && (view2 == view || nonce2 == nonce)
    ensures Lawful(ResidueCurve(PlainHash))
    ensures var scan := ScanWith(ResidueCurve(PlainHash), spend, view, seed, nonce, view2, nonce2);
            scan.Ok? && (scan.value.matched <==> view2 == view && nonce2 == nonce)
  {
    hide ScanWith, OffsetAt, TagAt, Lawful, PublicKey, MulMod;
    var c, r := ResidueCurve(PlainHash), ScalarFromWide(seed);
    ResidueCurveLawful(PlainHash);
    ScanOfAnother(c, spend, view, seed, nonce, view2, nonce2);
    var q := PlainShared(r, view, nonce);
    var q2 := PlainShared(r, view2, nonce2);
    NonceFits(nonce);
    NonceFits(nonce2);
    SameResidue(q, nonce, nonce2);
    SameResidue(nonce, q, q2);
    if q == q2 {
      PlainCancels(r, inverse, view, view2);
    }
  }

  // The shared point is 8 times a scalar.
  lemma PlainShared(r: Scalar, view: Scalar, nonce: U64) returns (q: Scalar)
    ensures var c := ResidueCurve(PlainHash);
            var p := c.mul(r, PublicKey(c, view));
            p as int == 8 * q && OffsetAt(c, p, nonce) == (q + nonce) % ORDER
  {
    hide OffsetAt, MulMod, Lawful;
    var c := ResidueCurve(PlainHash);
    ResidueCurveLawful(PlainHash);
    SharedMultiple(c, r, view);
    PlainOffset(r * view, nonce);
    q := (r * view) % ORDER;
  }

  lemma SharedMultiple<P(!new)>(c: Curve<P>, r: Scalar, view: Scalar)
    requires Lawful(c)
    ensures c.mul(r, PublicKey(c, view)) == c.mul(r * view, c.base)
  {
    MulProduct(c, r, view, c.base);
  }

  lemma PlainCancels(r: Scalar, inverse: nat, view: Scalar, view2: Scalar)
    requires (inverse * r) % ORDER == 1
    requires var c := ResidueCurve(PlainHash); c.mul(r, PublicKey(c, view)) == c.mul(r, PublicKey(c, view2))
    ensures view == view2
  {
    hide Lawful;
    ResidueCurveLawful(PlainHash);
    ScalarCancels(ResidueCurve(PlainHash), r, inverse, view, view2);
  }

  lemma SameResidue(q: Scalar, m: Scalar, n: Scalar)
    ensures (q + m) % ORDER == (q + n) % ORDER ==> m == n
  {
  }

  // A seed to which this applies.
  lemma SeedOfOne(seed: Wide)
    requires seed == LeBytes(1, 64)
    ensures (1 * ScalarFromWide(seed)) % ORDER == 1
  {
    SmallFits(1);
    LeRoundTrip(1, 64);
  }
}
