// Positional numerals in any base, most significant digit first, and the
// conversion between two bases that keeps leading zeros.
module Radix {

  type Base = b: nat | b >= 2 witness 2

  function Value(ds: seq<nat>, base: Base): nat {
    if ds == [] then 0 else Value(ds[..|ds| - 1], base) * base + ds[|ds| - 1]
  }

  function Digits(n: nat, base: Base): (ds: seq<nat>)
    ensures forall i :: 0 <= i < |ds| ==> ds[i] < base
    ensures n > 0 ==> ds != [] && ds[0] != 0
  {
    if n == 0 then []
    else
      QuotientSmaller(n, base);
      Digits(n / base, base) + [n % base]
  }

  // Products, one fact at a time.
  lemma ProductGrows(a: nat, b: nat, c: nat)
    requires a <= b
    ensures c * a <= c * b && a * c <= b * c
  {
  }

  lemma ProductOfNext(a: nat, b: nat)
    ensures b * (a + 1) == b * a + b && (a + 1) * b == a * b + b
  {
  }

  lemma Euclid(n: nat, base: Base)
    ensures n == base * (n / base) + n % base && n % base < base && n / base >= 0
  {
  }

  lemma QuotientSmaller(n: nat, base: Base)
    requires n > 0
    ensures n / base < n
    ensures n / base == 0 ==> n % base == n
  {
    Euclid(n, base);
    var q := n / base;
    ProductGrows(2, base, q);
  }

  ghost predicate Valid(ds: seq<nat>, base: Base) {
    forall i :: 0 <= i < |ds| ==> ds[i] < base
  }

  lemma EuclidUnique(base: Base, q: nat, d: nat, x: nat, r: nat)
    requires d < base && r < base && base * q + d == base * x + r
    ensures q == x && d == r
  {
    if q < x {
      ProductGrows(q + 1, x, base);
      ProductOfNext(q, base);
    } else if x < q {
      ProductGrows(x + 1, q, base);
      ProductOfNext(x, base);
    }
  }

  lemma QuotientAndRest(q: nat, d: nat, base: Base)
    requires d < base
    ensures (q * base + d) / base == q && (q * base + d) % base == d
  {
    var n := q * base + d;
    Euclid(n, base);
    assert q * base == base * q;
    EuclidUnique(base, q, d, n / base, n % base);
  }

  lemma ValueOfSnoc(ds: seq<nat>, d: nat, base: Base)
    ensures Value(ds + [d], base) == base * Value(ds, base) + d
  {
    assert (ds + [d])[..|ds|] == ds;
  }

  lemma {:induction false} ValueOfDigits(n: nat, base: Base)
    ensures Value(Digits(n, base), base) == n
  {
    if n != 0 {
      var q, r := n / base, n % base;
      Euclid(n, base);
      QuotientSmaller(n, base);
      ValueOfDigits(q, base);
      ValueOfSnoc(Digits(q, base), r, base);
      assert Digits(n, base) == Digits(q, base) + [r];
    }
  }

  lemma {:induction false} DigitsOfValue(ds: seq<nat>, base: Base)
    requires Valid(ds, base) && (ds != [] ==> ds[0] != 0)
    ensures Digits(Value(ds, base), base) == ds
  {
    if ds != [] {
      var init, last := ds[..|ds| - 1], ds[|ds| - 1];
      DigitsOfValue(init, base);
      QuotientAndRest(Value(init, base), last, base);
      if init != [] {
        ProductGrows(1, Value(init, base), base);
      }
      assert Value(ds, base) > 0;
    }
  }

  function Zeros(n: nat): seq<nat> {
    seq(n, i => 0)
  }

  function LeadingZeros(ds: seq<nat>): (z: nat)
    ensures z <= |ds|
    ensures forall i :: 0 <= i < z ==> ds[i] == 0
    ensures z < |ds| ==> ds[z] != 0
  {
    if ds == [] || ds[0] != 0 then 0 else 1 + LeadingZeros(ds[1..])
  }

  lemma {:induction false} ValueSkipsZeros(z: nat, ds: seq<nat>, base: Base)
    ensures Value(Zeros(z) + ds, base) == Value(ds, base)
    decreases z + |ds|
  {
    var all := Zeros(z) + ds;
    if ds != [] {
      assert all[..|all| - 1] == Zeros(z) + ds[..|ds| - 1];
      ValueSkipsZeros(z, ds[..|ds| - 1], base);
    } else if z > 0 {
      assert all[..|all| - 1] == Zeros(z - 1) + [];
      ValueSkipsZeros(z - 1, [], base);
    }
  }

  function Convert(ds: seq<nat>, from: Base, to: Base): (r: seq<nat>)
    ensures forall i :: 0 <= i < |r| ==> r[i] < to
  {
    Zeros(LeadingZeros(ds)) + Digits(Value(ds, from), to)
  }

  lemma LeadingZerosUnique(ds: seq<nat>, z: nat)
    requires z <= |ds|
    requires forall i :: 0 <= i < z ==> ds[i] == 0
    requires z < |ds| ==> ds[z] != 0
    ensures LeadingZeros(ds) == z
  {
    var y := LeadingZeros(ds);
    assert y < |ds| ==> ds[y] != 0;
  }

  lemma {:induction false} SplitZeros(ds: seq<nat>)
    ensures ds == Zeros(LeadingZeros(ds)) + ds[LeadingZeros(ds)..]
  {
    var z := LeadingZeros(ds);
    assert ds[..z] == Zeros(z);
  }

  // Converting there and back is the identity, in both directions.
  lemma ConvertBack(ds: seq<nat>, from: Base, to: Base)
    requires Valid(ds, from)
    ensures Convert(Convert(ds, from, to), to, from) == ds
  {
    var z := LeadingZeros(ds);
    var tail := ds[z..];
    var n := Value(ds, from);
    SplitZeros(ds);
    ValueSkipsZeros(z, tail, from);
    DigitsOfValue(tail, from);
    var out := Convert(ds, from, to);
    LeadingZerosUnique(out, z);
    ValueSkipsZeros(z, Digits(n, to), to);
    ValueOfDigits(n, to);
  }

  // -------------------------------------------------------------------------
  // Lengths

  function Pow(base: nat, e: nat): nat {
    if e == 0 then 1 else base * Pow(base, e - 1)
  }

  lemma {:induction false} ValueBounds(ds: seq<nat>, base: Base)
    requires Valid(ds, base)
    ensures Value(ds, base) < Pow(base, |ds|)
    ensures ds != [] && ds[0] != 0 ==> Value(ds, base) >= Pow(base, |ds| - 1)
  {
    if ds != [] {
      var init := ds[..|ds| - 1];
      ValueBounds(init, base);
      ProductGrows(Value(init, base) + 1, Pow(base, |init|), base);
      ProductOfNext(Value(init, base), base);
      if ds[0] != 0 && init != [] {
        ProductGrows(Pow(base, |init| - 1), Value(init, base), base);
      }
    }
  }

  lemma {:induction false} DigitCount(n: nat, base: Base, k: nat)
    ensures n < Pow(base, k) ==> |Digits(n, base)| <= k
    ensures n >= Pow(base, k) ==> |Digits(n, base)| > k
  {
    if n == 0 {
      PowPositive(base, k);
    } else if k > 0 {
      var q := n / base;
      QuotientSmaller(n, base);
      Euclid(n, base);
      DigitCount(q, base, k - 1);
      if q >= Pow(base, k - 1) {
        ProductGrows(Pow(base, k - 1), q, base);
      } else {
        ProductGrows(q + 1, Pow(base, k - 1), base);
        ProductOfNext(q, base);
      }
    }
  }

  lemma {:induction false} PowPositive(base: Base, k: nat)
    ensures Pow(base, k) > 0
  {
    if k != 0 {
      PowPositive(base, k - 1);
      ProductGrows(1, Pow(base, k - 1), base);
    }
  }

  // A smaller base has smaller powers.
  lemma {:induction false} PowMonotone(a: Base, b: Base, k: nat)
    requires a <= b
    ensures Pow(a, k) <= Pow(b, k)
  {
    if k != 0 {
      PowMonotone(a, b, k - 1);
      ProductGrows(a, b, Pow(a, k - 1));
      ProductGrows(Pow(a, k - 1), Pow(b, k - 1), b);
    }
  }

  lemma DigitsWithin(n: nat, base: Base, k: nat, bound: nat)
    requires n < bound <= Pow(base, k)
    ensures |Digits(n, base)| <= k
  {
    DigitCount(n, base, k);
  }

  lemma DigitsBeyond(n: nat, base: Base, k: nat, bound: nat)
    requires n >= bound >= Pow(base, k)
    ensures |Digits(n, base)| > k
  {
    DigitCount(n, base, k);
  }

  lemma TailLength(tail: seq<nat>, from: Base, to: Base, extra: nat)
    requires Valid(tail, from) && to <= from && (tail != [] ==> tail[0] != 0)
    requires Pow(from, |tail|) <= Pow(to, |tail| + extra)
    ensures |tail| <= |Digits(Value(tail, from), to)| <= |tail| + extra
  {
    var n := Value(tail, from);
    ValueBounds(tail, from);
    DigitsWithin(n, to, |tail| + extra, Pow(from, |tail|));
    if tail != [] {
      PowMonotone(to, from, |tail| - 1);
      DigitsBeyond(n, to, |tail| - 1, Pow(from, |tail| - 1));
    }
  }

  // Going to a smaller base lengthens a numeral, by at most `extra` digits if
  // the powers of the bases are that close.
  lemma LengthOfConverted(ds: seq<nat>, from: Base, to: Base, extra: nat)
    requires Valid(ds, from) && to <= from
    requires Pow(from, |ds| - LeadingZeros(ds)) <= Pow(to, |ds| - LeadingZeros(ds) + extra)
    ensures |ds| <= |Convert(ds, from, to)| <= |ds| + extra
  {
    var z := LeadingZeros(ds);
    SplitZeros(ds);
    ValueSkipsZeros(z, ds[z..], from);
    TailLength(ds[z..], from, to, extra);
  }
}
