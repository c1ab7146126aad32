// The text forms of a key: base58 as the chain prints it, hex as the gateway
// stores it, and the decoder that accepts both.
module KeyText {
  import opened Wrappers
  import opened Keys
  import opened Radix

  const B58_LOW: string := "123456789" + "ABCDEFGH" + "JKLMN"

  const B58_HIGH: string := "PQRSTUVWXYZ" + "abcdefghijk" + "mnopqrstuvwxyz"

  const B58_ALPHABET: string := B58_LOW + B58_HIGH

  const HEX_DIGITS: string := "0123456789abcdef"

  // `indexOf`: the first position of a character, or -1.
  function IndexOf(text: string, c: char): (i: int)
    ensures -1 <= i < |text|
    ensures i >= 0 ==> text[i] == c
    ensures i < 0 ==> c !in text
  {
    if text == "" then -1
    else if text[0] == c then 0
    else
      var i := IndexOf(text[1..], c);
      if i < 0 then -1 else i + 1
  }

  predicate DistinctChars(text: string) {
    forall i, j :: 0 <= i < j < |text| ==> text[i] != text[j]
  }

  lemma {:induction false} IndexOfAt(text: string, i: nat)
    requires i < |text| && DistinctChars(text)
    ensures IndexOf(text, text[i]) == i
  {
    if i > 0 {
      assert text[1..][i - 1] == text[i] && text[0] != text[i];
      IndexOfAt(text[1..], i - 1);
    }
  }

  // The code point at each position: the six runs of the alphabet.
  function CodeAt(i: nat): int {
    if i < 9 then 49 + i
    else if i < 17 then 65 + (i - 9)
    else if i < 22 then 74 + (i - 17)
    else if i < 33 then 80 + (i - 22)
    else if i < 44 then 97 + (i - 33)
    else 109 + (i - 44)
  }

  lemma LowRuns(i: nat)
    ensures |B58_LOW| == 22
    ensures i < 22 ==> B58_LOW[i] as int == CodeAt(i)
  {
    var a, b, c := "123456789", "ABCDEFGH", "JKLMN";
    assert B58_LOW == a + b + c;
    if i < 9 {
      assert B58_LOW[i] == a[i];
    } else if i < 17 {
      assert B58_LOW[i] == b[i - 9];
    } else if i < 22 {
      assert B58_LOW[i] == c[i - 17];
    }
  }

  lemma HighRuns(i: nat)
    ensures |B58_HIGH| == 36
    ensures i < 36 ==> B58_HIGH[i] as int == CodeAt(22 + i)
  {
    var a, b, c := "PQRSTUVWXYZ", "abcdefghijk", "mnopqrstuvwxyz";
    assert B58_HIGH == a + b + c;
    if i < 11 {
      assert B58_HIGH[i] == a[i];
    } else if i < 22 {
      assert B58_HIGH[i] == b[i - 11];
    } else if i < 36 {
      assert B58_HIGH[i] == c[i - 22];
    }
  }

  lemma AlphabetRuns(i: nat)
    ensures |B58_ALPHABET| == 58
    ensures i < 58 ==> B58_ALPHABET[i] as int == CodeAt(i)
  {
    hide CodeAt, B58_LOW, B58_HIGH;
    LowRuns(i);
    HighRuns(if i < 22 then 0 else i - 22);
  }

  lemma AlphabetDistinct()
    ensures |B58_ALPHABET| == 58 && DistinctChars(B58_ALPHABET) && B58_ALPHABET[0] == '1'
  {
    forall i, j | 0 <= i < j < |B58_ALPHABET| ensures B58_ALPHABET[i] != B58_ALPHABET[j] {
      AlphabetRuns(i);
      AlphabetRuns(j);
    }
    AlphabetRuns(0);
  }

  predicate IsBase58(s: string) {
    forall i :: 0 <= i < |s| ==> s[i] in B58_ALPHABET
  }

  function Indices(s: string): (ds: seq<nat>)
    requires IsBase58(s)
    ensures |ds| == |s| && Valid(ds, 58)
  {
    seq(|s|, i requires 0 <= i < |s| => IndexOf(B58_ALPHABET, s[i]))
  }

  function Text(ds: seq<nat>): (s: string)
    requires Valid(ds, 58)
    ensures |s| == |ds| && IsBase58(s)
  {
    seq(|ds|, i requires 0 <= i < |ds| => B58_ALPHABET[ds[i]])
  }

  // The standard base58 encoding.
  function Encode(bytes: seq<Byte>): string {
    Text(Convert(bytes, 256, 58))
  }

  // What the gateway's decoder computes.
  function Decode(s: string): seq<Byte>
    requires IsBase58(s)
  {
    Convert(Indices(s), 58, 256)
  }

  lemma IndicesOfText(ds: seq<nat>)
    requires Valid(ds, 58)
    ensures Indices(Text(ds)) == ds
  {
    AlphabetDistinct();
    forall i | 0 <= i < |ds| ensures Indices(Text(ds))[i] == ds[i] {
      IndexOfAt(B58_ALPHABET, ds[i]);
    }
  }

  // Base58 is a bijection between byte strings and strings over the alphabet.
  lemma DecodeEncode(bytes: seq<Byte>)
    ensures IsBase58(Encode(bytes)) && Decode(Encode(bytes)) == bytes
  {
    IndicesOfText(Convert(bytes, 256, 58));
    ConvertBack(bytes, 256, 58);
  }

  lemma EncodeDecode(s: string)
    requires IsBase58(s)
    ensures Encode(Decode(s)) == s
  {
    ConvertBack(Indices(s), 58, 256);
    assert Text(Indices(s)) == s;
  }

  // -------------------------------------------------------------------------
  // The decoder's loops

  datatype CodecError = InvalidChar(c: char)

  function Reversed<T>(s: seq<T>): seq<T> {
    if s == [] then [] else [s[|s| - 1]] + Reversed(s[..|s| - 1])
  }

  lemma ReversedPush<T>(s: seq<T>, x: T)
    ensures Reversed(s + [x]) == [x] + Reversed(s)
  {
    assert (s + [x])[..|s|] == s;
  }

  lemma ReadNone(s: string)
    ensures IsBase58(s[..0]) && Value(Indices(s[..0]), 58) == 0
  {
  }

  // Reading one more character of the alphabet.
  lemma ReadOne(s: string, i: nat)
    requires i < |s| && IsBase58(s[..i]) && s[i] in B58_ALPHABET
    ensures IsBase58(s[..i + 1])
    ensures Value(Indices(s[..i + 1]), 58) == Value(Indices(s[..i]), 58) * 58 + IndexOf(B58_ALPHABET, s[i])
  {
    hide IndexOf, Value;
    assert s[..i + 1] == s[..i] + [s[i]];
    IndicesSnoc(s[..i], s[i]);
    ValueOfSnoc(Indices(s[..i]), IndexOf(B58_ALPHABET, s[i]), 58);
  }

  lemma IndicesSnoc(s: string, c: char)
    requires IsBase58(s) && c in B58_ALPHABET
    ensures IsBase58(s + [c]) && Indices(s + [c]) == Indices(s) + [IndexOf(B58_ALPHABET, c)]
  {
    hide IndexOf;
  }

  method ReadNumber(s: string) returns (r: Result<nat, CodecError>)
    ensures r.Ok? <==> IsBase58(s)
    ensures r.Ok? ==> r.value == Value(Indices(s), 58)
    ensures r.Err? ==> exists i :: 0 <= i < |s| && s[i] == r.error.c && s[i] !in B58_ALPHABET && IsBase58(s[..i])
  {
    hide IndexOf, Value, Indices;
    ReadNone(s);
    var n := 0;
    for i := 0 to |s|
      invariant IsBase58(s[..i])
      invariant n == Value(Indices(s[..i]), 58)
    {
      var idx := IndexOf(B58_ALPHABET, s[i]);
      if idx < 0 {
        return Err(InvalidChar(s[i]));
      }
      ReadOne(s, i);
      n := n * 58 + idx;
    }
    assert s[..|s|] == s;
    return Ok(n);
  }

  // Moving one digit from the number to the bytes already extracted.
  lemma ExtractOne(n: nat, base: Base, bytes: seq<Byte>, digit: Byte)
    requires n > 0 && digit == n % base
    ensures n / base >= 0 && Digits(n, base) + Reversed(bytes) == Digits(n / base, base) + Reversed(bytes + [digit])
  {
    ReversedPush<Byte>(bytes, digit);
    LastDigit(n, base);
    MoveAcross(Digits(n / base, base), digit, Reversed(bytes));
  }

  lemma MoveAcross(front: seq<nat>, x: nat, back: seq<nat>)
    ensures (front + [x]) + back == front + ([x] + back)
  {
  }

  lemma LastDigit(n: nat, base: Base)
    requires n > 0
    ensures n / base >= 0 && Digits(n, base) == Digits(n / base, base) + [n % base]
  {
    QuotientSmaller(n, base);
  }

  method ExtractBytes(value: nat) returns (bytes: seq<Byte>)
    ensures Reversed(bytes) == Digits(value, 256)
  {
    var n := value;
    bytes := [];
    while n > 0
      invariant Digits(value, 256) == Digits(n, 256) + Reversed(bytes)
      decreases n
    {
      ExtractOne(n, 256, bytes, n % 256);
      bytes := bytes + [n % 256];
      n := n / 256;
    }
  }

  lemma OneMoreZero(i: nat, rest: seq<nat>)
    ensures [0] + (Zeros(i) + rest) == Zeros(i + 1) + rest
  {
  }

  function LeadingOnes(s: string): (n: nat)
    ensures n <= |s|
    ensures forall i :: 0 <= i < n ==> s[i] == '1'
    ensures n < |s| ==> s[n] != '1'
  {
    if s == "" || s[0] != '1' then 0 else 1 + LeadingOnes(s[1..])
  }

  // One zero byte for every leading '1'.
  method PushLeadingZeros(s: string, bytes: seq<Byte>) returns (all: seq<Byte>)
    ensures Reversed(all) == Zeros(LeadingOnes(s)) + Reversed(bytes)
  {
    all := bytes;
    var i := 0;
    ghost var rest := Reversed(bytes);
    assert Reversed(all) == Zeros(0) + rest;
    while i < |s| && s[i] == '1'
      invariant 0 <= i <= LeadingOnes(s)
      invariant Reversed(all) == Zeros(i) + rest
    {
      ReversedPush<Byte>(all, 0);
      OneMoreZero(i, rest);
      all := all + [0];
      i := i + 1;
    }
  }

  method Base58Decode(s: string) returns (r: Result<seq<Byte>, CodecError>)
    ensures r.Ok? <==> IsBase58(s)
    ensures r.Ok? ==> r.value == Decode(s)
    ensures r.Err? ==> exists i :: 0 <= i < |s| && s[i] == r.error.c && s[i] !in B58_ALPHABET && IsBase58(s[..i])
  {
    var n :- ReadNumber(s);
    var bytes := ExtractBytes(n);
    bytes := PushLeadingZeros(s, bytes);
    OnesAreZeros(s);
    return Ok(Reversed(bytes));
  }

  // The digit '1' stands for zero and no other character does.
  lemma OnesAreZeros(s: string)
    requires IsBase58(s)
    ensures LeadingZeros(Indices(s)) == LeadingOnes(s)
  {
    AlphabetDistinct();
    forall j | 0 <= j < LeadingOnes(s) ensures Indices(s)[j] == 0 {
      IndexOfAt(B58_ALPHABET, 0);
    }
    LeadingZerosUnique(Indices(s), LeadingOnes(s));
  }

  // -------------------------------------------------------------------------
  // Hex

  function ByteToHex(b: Byte): string {
    [HEX_DIGITS[b / 16], HEX_DIGITS[b % 16]]
  }

  function BytesToHex(bytes: seq<Byte>): (s: string)
    ensures |s| == 2 * |bytes|
  {
    if bytes == [] then "" else ByteToHex(bytes[0]) + BytesToHex(bytes[1..])
  }

  predicate IsHexChar(c: char) {
    '0' <= c <= '9' || 'a' <= c <= 'f' || 'A' <= c <= 'F'
  }

  predicate IsKeyHex(s: string) {
    |s| == 64 && forall i :: 0 <= i < |s| ==> IsHexChar(s[i])
  }

  function LowerChar(c: char): char {
    if 'A' <= c <= 'Z' then c + ('a' - 'A') else c
  }

  function Lower(s: string): string {
    seq(|s|, i requires 0 <= i < |s| => LowerChar(s[i]))
  }

  // base58OrHexToHex: None when the decoder throws.
  function ToHex(s: string): Option<string> {
    if IsKeyHex(s) then Some(Lower(s))
    else if IsBase58(s) then Some(BytesToHex(Decode(s)))
    else None
  }

  method Base58OrHexToHex(s: string) returns (r: Result<string, CodecError>)
    ensures ToHex(s) == (match r case Ok(hex) => Some(hex) case Err(_) => None)
  {
    if IsKeyHex(s) {
      return Ok(Lower(s));
    }
    var decoded :- Base58Decode(s);
    return Ok(BytesToHex(decoded));
  }

  lemma {:induction false} HexIsLowerHex(bytes: seq<Byte>)
    ensures forall i :: 0 <= i < |BytesToHex(bytes)| ==>
                          IsHexChar(BytesToHex(bytes)[i]) && LowerChar(BytesToHex(bytes)[i]) == BytesToHex(bytes)[i]
  {
    if bytes != [] {
      HexDigitIsLower(bytes[0] / 16);
      HexDigitIsLower(bytes[0] % 16);
      HexIsLowerHex(bytes[1..]);
      var rest := BytesToHex(bytes[1..]);
      assert forall i :: 2 <= i < |BytesToHex(bytes)| ==> BytesToHex(bytes)[i] == rest[i - 2];
    }
  }

  lemma HexDigitIsLower(d: nat)
    requires d < 16
    ensures IsHexChar(HEX_DIGITS[d]) && LowerChar(HEX_DIGITS[d]) == HEX_DIGITS[d]
  {
  }

  // The code points of the sixteen digits: two runs.
  lemma HexDigitCode(d: nat)
    requires d < 16
    ensures HEX_DIGITS[d] as int == (if d < 10 then 48 + d else 87 + d)
  {
  }

  lemma HexDigitInjective(d: nat, e: nat)
    requires d < 16 && e < 16 && HEX_DIGITS[d] == HEX_DIGITS[e]
    ensures d == e
  {
    HexDigitCode(d);
    HexDigitCode(e);
  }

  lemma ByteHexInjective(a: Byte, b: Byte)
    requires ByteToHex(a) == ByteToHex(b)
    ensures a == b
  {
    assert ByteToHex(a)[0] == ByteToHex(b)[0] && ByteToHex(a)[1] == ByteToHex(b)[1];
    HexDigitInjective(a / 16, b / 16);
    HexDigitInjective(a % 16, b % 16);
  }

  // Different byte strings have different hex.
  lemma {:induction false} HexInjective(a: seq<Byte>, b: seq<Byte>)
    requires BytesToHex(a) == BytesToHex(b)
    ensures a == b
  {
    assert |a| == |b|;
    if a != [] {
      HexSplits(a);
      HexSplits(b);
      ByteHexInjective(a[0], b[0]);
      HexInjective(a[1..], b[1..]);
      assert a == [a[0]] + a[1..] && b == [b[0]] + b[1..];
    }
  }

  lemma HexSplits(bytes: seq<Byte>)
    requires bytes != []
    ensures BytesToHex(bytes)[..2] == ByteToHex(bytes[0]) && BytesToHex(bytes)[2..] == BytesToHex(bytes[1..])
  {
  }

  // -------------------------------------------------------------------------
  // A key's text is never ambiguous

  // The powers of 256 stay within twelve digits of those of 58.
  lemma {:induction false} PowersClose(k: nat)
    requires k <= 32
    ensures Pow(256, k) <= Pow(58, k + 12)
    decreases 32 - k
  {
    if k < 32 {
      PowersClose(k + 1);
      assert Pow(256, k + 1) == 256 * Pow(256, k);
      assert Pow(58, k + 1 + 12) == 58 * Pow(58, k + 12);
    } else {
      LastPowers();
    }
  }

  lemma LastPowers()
    ensures Pow(256, 32) <= Pow(58, 44)
  {
    Pow256();
    Pow58();
  }

  lemma Pow256()
    ensures Pow(256, 32) == 115792089237316195423570985008687907853269984665640564039457584007913129639936
  {
    assert Pow(256, 1) == 256;
    PowTwice(256, 1);
    PowTwice(256, 2);
    PowTwice(256, 4);
    PowTwice(256, 8);
    PowTwice(256, 16);
  }

  lemma Pow58()
    ensures Pow(58, 44) == 389790918707373377135528568990913592653094657612049369038476873218241589149696
  {
    assert Pow(58, 1) == 58;
    PowTwice(58, 1);
    PowTwice(58, 2);
    PowTwice(58, 5);
    PowTwice(58, 11);
    PowTwice(58, 22);
  }

  lemma {:induction false} PowSum(base: Base, a: nat, b: nat)
    ensures Pow(base, a + b) == Pow(base, a) * Pow(base, b)
  {
    if a != 0 {
      PowSum(base, a - 1, b);
    }
  }

  lemma PowTwice(base: Base, a: nat)
    ensures Pow(base, 2 * a) == Pow(base, a) * Pow(base, a)
    ensures Pow(base, 2 * a + 1) == base * Pow(base, 2 * a)
  {
    PowSum(base, a, a);
  }

  lemma KeyTextLength(key: Key32)
    ensures 32 <= |Encode(key)| <= 44
  {
    PowersClose(|key| - LeadingZeros(key));
    LengthOfConverted(key, 256, 58, 12);
  }

  // The base58 text of a key and every spelling of its hex go to the same
  // lower-case hex, and different keys never meet.
  lemma KeyFormsAgree(key: Key32, spelling: string)
    requires |spelling| == 64 && Lower(spelling) == BytesToHex(key)
    ensures ToHex(Encode(key)) == Some(BytesToHex(key))
    ensures ToHex(spelling) == Some(BytesToHex(key))
    ensures forall other: Key32 :: ToHex(Encode(other)) == ToHex(Encode(key)) ==> other == key
  {
    KeyTextLength(key);
    DecodeEncode(key);
    HexIsLowerHex(key);
    forall i | 0 <= i < 64 ensures IsHexChar(spelling[i]) {
      assert LowerChar(spelling[i]) == BytesToHex(key)[i];
    }
    forall other: Key32 | ToHex(Encode(other)) == ToHex(Encode(key)) ensures other == key {
      KeyTextLength(other);
      DecodeEncode(other);
      HexInjective(other, key);
    }
  }
}
