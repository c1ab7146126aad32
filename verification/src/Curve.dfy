// The group the stealth scheme works in, as a record of operations with laws,
// and one concrete instance that shows the laws can be met.
module Curve {
  import opened Wrappers
  import opened Keys
  import opened Radix

  // The order of the base point, section 5.1 of RFC 8032.
  const ORDER: nat := 0x1000000000000000000000000000000014def9dea2f79cd65812631a5cf5d3ed

  type Wide = s: seq<Byte> | |s| == 64 witness seq(64, i => 0)

  datatype Curve<!P> = Curve(
    zero: P,
    base: P,
    add: (P, P) -> P,
    mul: (nat, P) -> P,
    compress: P -> Key32,
    decompress: Key32 -> Option<P>,
    sha512: seq<Byte> -> Wide)

  // The laws, one instance at a time.
  ghost predicate Commutes<P>(c: Curve<P>, p: P, q: P) {
    c.add(p, q) == c.add(q, p)
  }

  ghost predicate Associates<P>(c: Curve<P>, p: P, q: P, r: P) {
    c.add(c.add(p, q), r) == c.add(p, c.add(q, r))
  }

  ghost predicate Steps<P>(c: Curve<P>, n: nat, p: P) {
    c.mul(n + 1, p) == c.add(p, c.mul(n, p))
  }

  ghost predicate Survives<P>(c: Curve<P>, p: P) {
    c.decompress(c.compress(p)) == Some(p)
  }

  // No smaller multiples of the base meet.
  ghost predicate Separate<P>(c: Curve<P>, m: nat, n: nat) {
    m < ORDER && n < ORDER && c.mul(m, c.base) == c.mul(n, c.base) ==> m == n
  }

  // A commutative group in which the base point has exact order ORDER (other points
  // may lie outside its subgroup), with points that survive encoding, sections
  // 5.1.2 and 5.1.3 of RFC 8032. Nothing is said about other encodings or the hash.
  ghost predicate Lawful<P(!new)>(c: Curve<P>) {
    && (forall p :: c.add(p, c.zero) == p)
    && (forall p, q :: Commutes(c, p, q))
    && (forall p, q, r :: Associates(c, p, q, r))
    && (forall p :: c.mul(0, p) == c.zero)
    && (forall n: nat, p :: Steps(c, n, p))
    && c.mul(ORDER, c.base) == c.zero
    && (forall m: nat, n: nat :: Separate(c, m, n))
    && (forall p :: Survives(c, p))
  }

  lemma {:induction false} MulSum<P(!new)>(c: Curve<P>, m: nat, n: nat, p: P)
    requires Lawful(c)
    ensures c.mul(m + n, p) == c.add(c.mul(m, p), c.mul(n, p))
  {
    if m == 0 {
      assert Commutes(c, c.zero, c.mul(n, p));
    } else {
      MulSum(c, m - 1, n, p);
      assert Steps(c, m - 1 + n, p) && Steps(c, m - 1, p);
      assert Associates(c, p, c.mul(m - 1, p), c.mul(n, p));
    }
  }

  lemma {:induction false} MulProduct<P(!new)>(c: Curve<P>, m: nat, n: nat, p: P)
    requires Lawful(c)
    ensures c.mul(m, c.mul(n, p)) == c.mul(m * n, p)
  {
    if m != 0 {
      MulProduct(c, m - 1, n, p);
      MulSum(c, n, (m - 1) * n, p);
      assert Steps(c, m - 1, c.mul(n, p));
      assert n + (m - 1) * n == m * n;
    }
  }

  lemma {:induction false} MulZero<P(!new)>(c: Curve<P>, m: nat)
    requires Lawful(c)
    ensures c.mul(m, c.zero) == c.zero
  {
    if m != 0 {
      MulZero(c, m - 1);
      assert Steps(c, m - 1, c.zero);
    }
  }

  // Scalars of the base point may be reduced modulo its order.
  lemma MulReduced<P(!new)>(c: Curve<P>, n: nat)
    requires Lawful(c)
    ensures c.mul(n % ORDER, c.base) == c.mul(n, c.base)
  {
    var q, r := n / ORDER, n % ORDER;
    MulSum(c, q * ORDER, r, c.base);
    MulProduct(c, q, ORDER, c.base);
    MulZero(c, q);
    assert Commutes(c, c.zero, c.mul(r, c.base));
  }

  // Scalar multiplications commute: what makes a shared secret shared.
  lemma MulCommutes<P(!new)>(c: Curve<P>, m: nat, n: nat, p: P)
    requires Lawful(c)
    ensures c.mul(m, c.mul(n, p)) == c.mul(n, c.mul(m, p))
  {
    MulProduct(c, m, n, p);
    MulProduct(c, n, m, p);
    assert m * n == n * m;
  }

  // -------------------------------------------------------------------------
  // Little-endian numbers

  function LeValue(bytes: seq<Byte>): nat {
    if bytes == [] then 0 else bytes[0] + 256 * LeValue(bytes[1..])
  }

  function LeBytes(n: nat, size: nat): (bytes: seq<Byte>)
    ensures |bytes| == size
  {
    if size == 0 then [] else [n % 256] + LeBytes(n / 256, size - 1)
  }

  lemma {:induction false} LeRoundTrip(n: nat, size: nat)
    requires n < Pow(256, size)
    ensures LeValue(LeBytes(n, size)) == n
  {
    if size != 0 {
      LeRoundTrip(n / 256, size - 1);
    }
  }

  // -------------------------------------------------------------------------
  // An instance: residues modulo 8 * ORDER with base point 8, so that the base
  // has order ORDER and most points lie outside its subgroup.

  const MODULUS: nat := 8 * ORDER

  newtype Residue = x: int | 0 <= x < MODULUS

  function AddMod(p: Residue, q: Residue): Residue {
    var sum := p as int + q as int;
    (if sum < MODULUS then sum else sum - MODULUS) as Residue
  }

  function MulMod(n: nat, p: Residue): Residue {
    ((n * p as int) % MODULUS) as Residue
  }

  lemma MulModNext(n: nat, p: Residue)
    ensures MulMod(n + 1, p) == AddMod(p, MulMod(n, p))
  {
    var t := n * p as int;
    assert (n + 1) * p as int == t + p as int;
    ModNext(t, p as int);
  }

  lemma ModNext(t: nat, p: nat)
    requires p < MODULUS
    ensures (t + p) % MODULUS == (if p + t % MODULUS < MODULUS then p + t % MODULUS else p + t % MODULUS - MODULUS)
  {
  }

  function Compress(p: Residue): Key32 {
    LeBytes(p as int, 32)
  }

  function Decompress(k: Key32): Option<Residue> {
    if LeValue(k) < MODULUS then Some(LeValue(k) as Residue) else None
  }

  function ResidueCurve(sha512: seq<Byte> -> Wide): Curve<Residue> {
    Curve(0, 8, AddMod, MulMod, Compress, Decompress, sha512)
  }

  lemma AddModAssociates(p: Residue, q: Residue, r: Residue)
    ensures AddMod(AddMod(p, q), r) == AddMod(p, AddMod(q, r))
  {
  }

  lemma CompressionRoundTrip(p: Residue)
    ensures Decompress(Compress(p)) == Some(p)
  {
    ModulusFits();
    LeRoundTrip(p as int, 32);
  }

  lemma ResidueCurveLawful(sha512: seq<Byte> -> Wide)
    ensures Lawful(ResidueCurve(sha512))
  {
    var c := ResidueCurve(sha512);
    forall p, q, r ensures Associates(c, p, q, r) {
      AddModAssociates(p, q, r);
    }
    forall n: nat, p ensures Steps(c, n, p) {
      MulModNext(n, p);
    }
    forall p ensures Survives(c, p) {
      CompressionRoundTrip(p);
    }
    forall m: nat, n: nat ensures Separate(c, m, n) {
    }
    assert c.mul(ORDER, c.base) == c.zero;
  }

  lemma ModulusFits()
    ensures MODULUS < Pow(256, 32)
  {
    var p4 := 256 * (256 * (256 * 256));
    assert Pow(256, 4) == p4;
    PowStep(28);
    PowStep(24);
    PowStep(20);
    PowStep(16);
    PowStep(12);
    PowStep(8);
    PowStep(4);
  }

  lemma PowStep(e: nat)
    ensures Pow(256, e + 4) == 0x1_0000_0000 * Pow(256, e)
  {
    assert Pow(256, e + 4) == 256 * Pow(256, e + 3);
    assert Pow(256, e + 3) == 256 * Pow(256, e + 2);
    assert Pow(256, e + 2) == 256 * Pow(256, e + 1);
  }
}
