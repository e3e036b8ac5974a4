/**
 Field elements as the services exchange them: 32 big-endian bytes, hex strings, and public
 keys masked down to field elements.
 */
module Codec {
  import opened Wrappers

  /** The BN254 scalar field prime. */
  const BN254_FR: nat := 21888242871839275222246405745257275088548364400416034343698204186575808495617

  // ---------------------------------------------------------------------------
  // Digits in base 16 and base 256
  // ---------------------------------------------------------------------------

  type Base = b: nat | b == 16 || b == 256 witness 16

  function Scale(base: Base, n: nat): nat {
    if base == 16 then 16 * n else 256 * n
  }

  function Quotient(base: Base, n: nat): nat {
    if base == 16 then n / 16 else n / 256
  }

  function LastDigit(base: Base, n: nat): (d: nat)
    ensures d < base && n == Scale(base, Quotient(base, n)) + d
  {
    if base == 16 then n % 16 else n % 256
  }

  function Pow(base: Base, k: nat): (p: nat)
    ensures p > 0
  {
    if k == 0 then 1 else Scale(base, Pow(base, k - 1))
  }

  ghost predicate AreDigits(base: Base, ds: seq<nat>) {
    forall i :: 0 <= i < |ds| ==> ds[i] < base
  }

  /** The value of big-endian digits. */
  function FromDigits(base: Base, ds: seq<nat>): nat {
    if ds == [] then 0 else Scale(base, FromDigits(base, ds[..|ds| - 1])) + ds[|ds| - 1]
  }

  /** The last k big-endian digits of n. */
  function ToDigits(base: Base, n: nat, k: nat): (ds: seq<nat>)
    ensures |ds| == k && AreDigits(base, ds)
  {
    if k == 0 then [] else ToDigits(base, Quotient(base, n), k - 1) + [LastDigit(base, n)]
  }

  /** n with its last k digits cut off. */
  function CutDigits(base: Base, n: nat, k: nat): nat {
    if k == 0 then n else CutDigits(base, Quotient(base, n), k - 1)
  }

  lemma {:induction false} FromDigitsBound(base: Base, ds: seq<nat>)
    requires AreDigits(base, ds)
    ensures FromDigits(base, ds) < Pow(base, |ds|)
  {
    if ds != [] {
      FromDigitsBound(base, ds[..|ds| - 1]);
    }
  }

  lemma {:induction false} DigitsSplit(base: Base, n: nat, k: nat)
    ensures n == CutDigits(base, n, k) * Pow(base, k) + FromDigits(base, ToDigits(base, n, k))
  {
    if k > 0 {
      var q := Quotient(base, n);
      DigitsSplit(base, q, k - 1);
      assert ToDigits(base, n, k)[..k - 1] == ToDigits(base, q, k - 1);
      ScaleProduct(base, CutDigits(base, q, k - 1), Pow(base, k - 1));
    }
  }

  lemma ScaleProduct(base: Base, c: nat, p: nat)
    ensures c * Scale(base, p) == Scale(base, c * p)
  {
  }

  lemma ScaleSum(base: Base, a: nat, b: nat)
    ensures Scale(base, a + b) == Scale(base, a) + Scale(base, b)
  {
  }

  lemma {:induction false} MulStep(a: nat, b: nat, m: nat)
    requires a < b
    ensures a * m + m <= b * m
  {
    if a + 1 < b {
      MulStep(a, b - 1, m);
    }
  }

  lemma ModIsRemainder(q: nat, m: nat, r: nat)
    requires r < m
    ensures (q * m + r) % m == r
  {
    var n := q * m + r;
    var q', r' := n / m, n % m;
    if q' > q {
      MulStep(q, q', m);
    } else if q' < q {
      MulStep(q', q, m);
    }
  }

  lemma SmallMod(n: nat, m: nat)
    requires n < m
    ensures n % m == n
  {
    ModIsRemainder(0, m, n);
  }

  /** Decoding the last k digits of n gives n modulo base to the k. */
  lemma DecodeEncode(base: Base, n: nat, k: nat)
    ensures FromDigits(base, ToDigits(base, n, k)) == n % Pow(base, k)
  {
    DigitsSplit(base, n, k);
    FromDigitsBound(base, ToDigits(base, n, k));
    ModIsRemainder(CutDigits(base, n, k), Pow(base, k), FromDigits(base, ToDigits(base, n, k)));
  }

  /** Encoding the value of k digits gives the digits back. */
  lemma {:induction false} EncodeDecode(base: Base, ds: seq<nat>)
    requires AreDigits(base, ds)
    ensures ToDigits(base, FromDigits(base, ds), |ds|) == ds
  {
    if ds != [] {
      var init, last := ds[..|ds| - 1], ds[|ds| - 1];
      EncodeDecode(base, init);
      LastDigitSplits(base, FromDigits(base, init), last);
      assert FromDigits(base, ds) == Scale(base, FromDigits(base, init)) + last;
      hide FromDigits, Scale, Quotient, LastDigit;
      assert ds == init + [last];
    }
  }

  lemma LastDigitSplits(base: Base, n: nat, d: nat)
    requires d < base
    ensures Quotient(base, Scale(base, n) + d) == n && LastDigit(base, Scale(base, n) + d) == d
  {
  }

  // ---------------------------------------------------------------------------
  // Hex digits of a number, and 64 of them as 32 bytes
  // ---------------------------------------------------------------------------

  /** `n.toString(16)`: no leading zero, except for zero itself. */
  function Hex(n: nat): seq<nat> {
    if n < 16 then [n] else Hex(n / 16) + [n % 16]
  }

  /** The last k digits, with zeros in front when there are fewer. */
  function Fit(ds: seq<nat>, k: nat): (r: seq<nat>)
    ensures |r| == k
  {
    if |ds| > k then ds[|ds| - k..] else seq(k - |ds|, _ => 0) + ds
  }

  lemma {:induction false} ZeroDigits(base: Base, k: nat)
    ensures ToDigits(base, 0, k) == seq(k, _ => 0)
  {
    if k > 0 {
      ZeroDigits(base, k - 1);
    }
  }

  lemma {:induction false} FitHex(n: nat, k: nat)
    ensures Fit(Hex(n), k) == ToDigits(16, n, k)
    decreases k
  {
    if k > 0 {
      if n < 16 {
        ZeroDigits(16, k - 1);
      } else {
        FitHex(n / 16, k - 1);
        FitAppend(Hex(n / 16), n % 16, k);
      }
    }
  }

  lemma FitAppend(ds: seq<nat>, d: nat, k: nat)
    requires k > 0
    ensures Fit(ds + [d], k) == Fit(ds, k - 1) + [d]
  {
  }

  /** Two hex digits a byte. */
  function PairUp(ds: seq<nat>): (bytes: seq<nat>)
    requires |ds| % 2 == 0
    ensures |bytes| == |ds| / 2
  {
    if ds == [] then [] else PairUp(ds[..|ds| - 2]) + [16 * ds[|ds| - 2] + ds[|ds| - 1]]
  }

  lemma {:induction false} PairUpDigits(n: nat, k: nat)
    ensures PairUp(ToDigits(16, n, 2 * k)) == ToDigits(256, n, k)
    decreases k
  {
    if k > 0 {
      var ds := ToDigits(16, n, 2 * k);
      PairUpDigits(n / 256, k - 1);
      assert (n / 16) / 16 == n / 256;
      assert ToDigits(16, n / 16, 2 * k - 1) == ToDigits(16, (n / 16) / 16, 2 * k - 2) + [(n / 16) % 16];
      assert ds[..|ds| - 2] == ToDigits(16, n / 256, 2 * (k - 1));
      assert 16 * ((n / 16) % 16) + n % 16 == n % 256;
    }
  }

  // ---------------------------------------------------------------------------
  // The codecs
  // ---------------------------------------------------------------------------

  const FIELD_BYTES: nat := 32

  type Bytes32 = b: seq<nat> | |b| == FIELD_BYTES && AreDigits(256, b) witness seq(32, _ => 0)

  /** The value of 32 big-endian bytes. */
  function Value(b: seq<nat>): nat {
    FromDigits(256, b)
  }

  /** The low 256 bits of n as 32 big-endian bytes. */
  function Encode(n: nat): Bytes32 {
    ToDigits(256, n, FIELD_BYTES)
  }

  lemma {:induction false} PairUpAt(ds: seq<nat>, i: nat)
    requires |ds| % 2 == 0 && 2 * i < |ds|
    ensures PairUp(ds)[i] == 16 * ds[2 * i] + ds[2 * i + 1]
  {
    if i < |ds| / 2 - 1 {
      PairUpAt(ds[..|ds| - 2], i);
    }
  }

  /** Parses two hex digits into each byte of the buffer. */
  method ParsePairs(hex: seq<nat>, out: array<nat>)
    requires |hex| == 2 * out.Length
    modifies out
    ensures out[..] == PairUp(hex)
  {
    for i := 0 to out.Length
      invariant forall j {:trigger out[j]} :: 0 <= j < i ==> out[j] == PairUp(hex)[j]
    {
      PairUpAt(hex, i);
      out[i] := 16 * hex[2 * i] + hex[2 * i + 1];
    }
  }

  /** Prints in hex, keeps the last 64 digits, pads with zeros, and parses two digits a byte. */
  method FieldDecToBE32(n: nat) returns (out: array<nat>)
    ensures fresh(out) && out[..] == Encode(n)
  {
    hide Hex, Fit, ToDigits, PairUp;
    var hex := Fit(Hex(n), 2 * FIELD_BYTES);
    FitHex(n, 2 * FIELD_BYTES);
    PairUpDigits(n, FIELD_BYTES);
    out := new nat[FIELD_BYTES];
    ParsePairs(hex, out);
  }

  /** The shared decoding loop: shift left by a byte and add the next. */
  method BeToBigInt(bytes: seq<nat>) returns (n: nat)
    ensures n == Value(bytes)
  {
    n := 0;
    for i := 0 to |bytes|
      invariant n == Value(bytes[..i])
    {
      assert bytes[..i + 1][..i] == bytes[..i];
      n := 256 * n + bytes[i];
    }
    assert bytes[..|bytes|] == bytes;
  }

  datatype CodecError = WrongLength | NotANumber | NotAFieldElement | ExceedsBytes

  method Be32ToFieldDec(bytes: seq<nat>) returns (r: Result<nat, CodecError>)
    ensures r == if |bytes| != FIELD_BYTES then Err(WrongLength) else Ok(Value(bytes))
  {
    if |bytes| != FIELD_BYTES {
      return Err(WrongLength);
    }
    var n := BeToBigInt(bytes);
    return Ok(n);
  }

  /** Both round trips of the 32-byte codec. */
  lemma FieldCodecRoundTrips(n: nat, b: Bytes32)
    ensures Value(Encode(n)) == n % Pow(256, FIELD_BYTES)
    ensures Encode(Value(b)) == b
  {
    DecodeEncode(256, n, FIELD_BYTES);
    EncodeDecode(256, b);
  }

  // ---------------------------------------------------------------------------
  // Hex strings of the indexer API
  // ---------------------------------------------------------------------------

  function HexChar(d: nat): char
    requires d < 16
  {
    "0123456789abcdef"[d]
  }

  /** A hex digit in either case; 16 for any other character. */
  function HexValue(c: char): (d: nat)
    ensures d <= 16
  {
    if '0' <= c <= '9' then c as int - '0' as int
    else if 'a' <= c <= 'f' then c as int - 'a' as int + 10
    else if 'A' <= c <= 'F' then c as int - 'A' as int + 10
    else 16
  }

  function HexString(ds: seq<nat>): (s: string)
    requires AreDigits(16, ds)
    ensures |s| == |ds|
  {
    seq(|ds|, i requires 0 <= i < |ds| => HexChar(ds[i]))
  }

  /** `bigIntToHexBE32`: refuses a value of more than 64 hex digits. */
  function BigIntToHexBE32(n: nat): Result<string, CodecError> {
    if |Hex(n)| > 2 * FIELD_BYTES then Err(ExceedsBytes)
    else
      FitHex(n, 2 * FIELD_BYTES);
      Ok("0x" + HexString(Fit(Hex(n), 2 * FIELD_BYTES)))
  }

  function ParseDigits(s: string, radix: nat): Option<nat>
    requires radix == 10 || radix == 16
  {
    if s == "" then Some(0)
    else
      var d := HexValue(s[|s| - 1]);
      match ParseDigits(s[..|s| - 1], radix)
      case None => None
      case Some(n) => if d < radix then Some(if radix == 10 then 10 * n + d else 16 * n + d) else None
  }

  /** A `0x` hex literal or a decimal one, at least one digit long; surrounding blanks already trimmed. */
  function ParseInteger(s: string): Option<nat> {
    if |s| > 2 && s[0] == '0' && (s[1] == 'x' || s[1] == 'X') then ParseDigits(s[2..], 16)
    else if s == "" then None
    else ParseDigits(s, 10)
  }

  /** `parseCommitmentParam`: the 32 bytes of a field element, or why the text is not one. */
  function ParseCommitmentParam(s: string): Result<Bytes32, CodecError> {
    match ParseInteger(s)
    case None => Err(NotANumber)
    case Some(n) => if n >= BN254_FR then Err(NotAFieldElement) else Ok(Encode(n))
  }

  lemma HexCharReadsBack(d: nat)
    requires d < 16
    ensures HexValue(HexChar(d)) == d
  {
  }

  lemma {:induction false} ParseHexString(ds: seq<nat>)
    requires AreDigits(16, ds)
    ensures ParseDigits(HexString(ds), 16) == Some(FromDigits(16, ds))
  {
    if ds != [] {
      var init, last := ds[..|ds| - 1], ds[|ds| - 1];
      ParseHexString(init);
      HexCharReadsBack(last);
      var text := HexString(ds);
      assert text[..|text| - 1] == HexString(init);
      assert text[|text| - 1] == HexChar(last);
    }
  }

  /** The number of hex digits tells how large a number is. */
  lemma {:induction false} HexLength(n: nat, k: nat)
    requires k >= 1
    ensures |Hex(n)| <= k <==> n < Pow(16, k)
    decreases k
  {
    if k == 1 {
      assert Pow(16, 1) == 16;
    } else if n >= 16 {
      HexLength(n / 16, k - 1);
      assert Pow(16, k) == 16 * Pow(16, k - 1);
    } else {
      assert Pow(16, k) == 16 * Pow(16, k - 1);
    }
  }

  lemma {:induction false} PowGrows(base: Base, a: nat, b: nat)
    requires a <= b
    ensures Pow(base, a) <= Pow(base, b)
  {
    if a < b {
      PowGrows(base, a, b - 1);
    }
  }

  const TWO_64: nat := 0x1_0000_0000_0000_0000
  const TWO_248: nat := 0x1_0000_0000_0000_0000_0000_0000_0000_0000_0000_0000_0000_0000_0000_0000_0000_00
  const TWO_253: nat := 32 * TWO_248
  const TWO_256: nat := 0x1_0000_0000_0000_0000_0000_0000_0000_0000_0000_0000_0000_0000_0000_0000_0000_0000

  lemma ByteRanges()
    ensures Pow(256, 8) == TWO_64 && Pow(256, 31) == TWO_248 && Pow(256, 32) == TWO_256 == Pow(16, 64)
  {
    assert Pow(256, 8) == 0x1_0000_0000_0000_0000;
    assert Pow(256, 16) == 0x1_0000_0000_0000_0000_0000_0000_0000_0000;
    assert Pow(256, 24) == 0x1_0000_0000_0000_0000_0000_0000_0000_0000_0000_0000_0000_0000;
    assert Pow(16, 8) == 0x1_0000_0000;
    assert Pow(16, 16) == 0x1_0000_0000_0000_0000;
    assert Pow(16, 24) == 0x1_0000_0000_0000_0000_0000_0000;
    assert Pow(16, 32) == 0x1_0000_0000_0000_0000_0000_0000_0000_0000;
    assert Pow(16, 40) == 0x1_0000_0000_0000_0000_0000_0000_0000_0000_0000_0000;
    assert Pow(16, 48) == 0x1_0000_0000_0000_0000_0000_0000_0000_0000_0000_0000_0000_0000;
    assert Pow(16, 56) == 0x1_0000_0000_0000_0000_0000_0000_0000_0000_0000_0000_0000_0000_0000_0000;
  }

  lemma PrintedForm(n: nat)
    requires |Hex(n)| <= 64
    ensures BigIntToHexBE32(n) == Ok("0x" + HexString(ToDigits(16, n, 64)))
  {
    FitHex(n, 64);
  }

  lemma ParsePrinted(text: string)
    requires text != ""
    ensures ParseInteger("0x" + text) == ParseDigits(text, 16)
  {
    assert ("0x" + text)[2..] == text;
  }

  lemma HexRoundTrip(n: nat, k: nat)
    requires k >= 1 && n < Pow(16, k)
    ensures ParseInteger("0x" + HexString(ToDigits(16, n, k))) == Some(n)
  {
    hide ToDigits, FromDigits, Pow, ParseDigits, ParseInteger;
    var ds := ToDigits(16, n, k);
    SmallMod(n, Pow(16, k));
    ParsePrinted(HexString(ds));
    ParseHexString(ds);
    DecodeEncode(16, n, k);
  }

  /**
   Printing then parsing is the identity on field elements; a number that is not one is refused,
   by the parser from the prime up and by the printer from 2^256 up.
   */
  lemma PrintThenParse(n: nat)
    ensures BigIntToHexBE32(n).Ok? <==> n < TWO_256
    ensures n < TWO_256 ==>
              ParseCommitmentParam(BigIntToHexBE32(n).value) ==
                if n < BN254_FR then Ok(Encode(n)) else Err(NotAFieldElement)
    ensures n < BN254_FR ==> n < TWO_256 && Value(Encode(n)) == n
  {
    hide ToDigits, FromDigits, Pow, Hex, ParseDigits;
    ByteRanges();
    HexLength(n, 64);
    DecodeEncode(256, n, FIELD_BYTES);
    if n < TWO_256 {
      PrintedForm(n);
      HexRoundTrip(n, 64);
    }
  }

  // ---------------------------------------------------------------------------
  // Public keys and amounts
  // ---------------------------------------------------------------------------

  /** Clears the top three bits of a public key; the program and the SDK do the same. */
  function MaskPubkey(pk: Bytes32): Bytes32 {
    pk[0 := pk[0] % 32]
  }

  lemma {:induction false} LeadingDigit(base: Base, d: nat, rest: seq<nat>)
    ensures FromDigits(base, [d] + rest) == d * Pow(base, |rest|) + FromDigits(base, rest)
  {
    if rest == [] {
      assert [d] + rest == [d];
      assert [d][..0] == [];
    } else {
      var init, last := rest[..|rest| - 1], rest[|rest| - 1];
      LeadingDigit(base, d, init);
      assert ([d] + rest)[..|rest|] == [d] + init;
      assert FromDigits(base, [d] + rest) == Scale(base, FromDigits(base, [d] + init)) + last;
      ScaleProduct(base, d, Pow(base, |init|));
      ScaleSum(base, d * Pow(base, |init|), FromDigits(base, init));
    }
  }

  /** The SDK masks a fresh copy of the key, then reads it as a number. */
  method PubkeyToField(pk: Bytes32) returns (out: array<nat>, n: nat)
    ensures fresh(out) && out[..] == MaskPubkey(pk) && n == Value(MaskPubkey(pk))
  {
    out := new nat[FIELD_BYTES](i requires 0 <= i < FIELD_BYTES => pk[i]);
    out[0] := out[0] % 32;
    assert out[..] == MaskPubkey(pk);
    n := BeToBigInt(out[..]);
  }

  lemma LeadingByte(b: Bytes32)
    ensures Value(b) == b[0] * TWO_248 + Value(b[1..])
    ensures Value(b[1..]) < TWO_248
  {
    ByteRanges();
    assert b == [b[0]] + b[1..] && |b[1..]| == 31;
    LeadingDigit(256, b[0], b[1..]);
    FromDigitsBound(256, b[1..]);
  }

  /**
   A masked key is a field element below 2^253, so the SDK's number for it, written back as 32
   bytes, is byte for byte what the program compares with.
   */
  lemma MaskedPubkeyIsFieldElement(pk: Bytes32)
    ensures Value(MaskPubkey(pk)) < TWO_253 < BN254_FR
    ensures Encode(Value(MaskPubkey(pk))) == MaskPubkey(pk)
    ensures Value(MaskPubkey(pk)) == Value(pk) % (TWO_253)
  {
    var m := MaskPubkey(pk);
    EncodeDecode(256, m);
    LeadingByte(m);
    LeadingByte(pk);
    assert m[1..] == pk[1..];
    var q := pk[0] / 32;
    assert pk[0] * TWO_248 == q * (TWO_253) + m[0] * TWO_248;
    ModIsRemainder(q, TWO_253, Value(m));
  }

  /** `field_from_u64`: 24 zero bytes, then the amount. */
  function FieldFromU64(v: nat): Bytes32
    requires v < TWO_64
  {
    seq(24, _ => 0) + ToDigits(256, v, 8)
  }

  /** How `withdraw` reads the payment: the high 24 bytes must be zero, the rest is a u64. */
  method PaymentFromField(b: Bytes32) returns (amount: Option<nat>)
    ensures amount == if Value(b) < TWO_64 then Some(Value(b)) else None
  {
    for i := 0 to 24
      invariant forall j :: 0 <= j < i ==> b[j] == 0
    {
      if b[i] != 0 {
        NonZeroHighByte(b, i);
        return None;
      }
    }
    ZeroHighBytes(b);
    var n := BeToBigInt(b[24..]);
    return Some(n);
  }

  lemma {:induction false} LeadingZeros(k: nat, ds: seq<nat>)
    ensures FromDigits(256, seq(k, _ => 0) + ds) == FromDigits(256, ds)
  {
    if k == 0 {
      assert seq(k, _ => 0) + ds == ds;
    } else {
      LeadingZeros(k - 1, ds);
      assert seq(k, _ => 0) + ds == [0] + (seq(k - 1, _ => 0) + ds);
      LeadingDigit(256, 0, seq(k - 1, _ => 0) + ds);
    }
  }

  lemma ZeroHighBytes(b: Bytes32)
    requires forall j :: 0 <= j < 24 ==> b[j] == 0
    ensures Value(b) == Value(b[24..]) < TWO_64
  {
    ByteRanges();
    assert b == seq(24, _ => 0) + b[24..];
    LeadingZeros(24, b[24..]);
    FromDigitsBound(256, b[24..]);
  }

  lemma NonZeroHighByte(b: Bytes32, i: nat)
    requires i < 24 && b[i] != 0 && forall j :: 0 <= j < i ==> b[j] == 0
    ensures Value(b) >= TWO_64
  {
    ByteRanges();
    var rest := b[i + 1..];
    assert b == seq(i, _ => 0) + ([b[i]] + rest);
    LeadingZeros(i, [b[i]] + rest);
    LeadingDigit(256, b[i], rest);
    PowGrows(256, 8, |rest|);
    MulStep(0, b[i], Pow(256, |rest|));
  }

  /** The tier amount's field element is its 32-byte encoding, and reads back as the amount. */
  lemma AmountRoundTrip(v: nat)
    requires v < TWO_64
    ensures Value(FieldFromU64(v)) == v && FieldFromU64(v) == Encode(v)
  {
    hide ToDigits, FromDigits, Pow;
    ByteRanges();
    var low := ToDigits(256, v, 8);
    SmallMod(v, TWO_64);
    LeadingZeros(24, low);
    DecodeEncode(256, v, 8);
    assert Value(FieldFromU64(v)) == v;
    EncodeDecode(256, FieldFromU64(v));
  }
}
