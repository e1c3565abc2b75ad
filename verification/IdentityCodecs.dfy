/**
 * The two identity codecs of the PPCS transport: 20-byte device identities
 * (DIDs) and the obfuscated cloud address list. ASCII text is modelled by its
 * character codes.
 */
module IdentityCodecs {
  import opened Bytes

  type text = bytes

  const HYPHEN: byte := 45
  const ZERO: byte := 48
  const DID_LENGTH: nat := 20

  // Decimal numbers

  function Decimal(n: nat): (t: text)
    ensures |t| >= 1 && AllDigits(t)
  {
    if n < 10 then [ZERO + n] else Decimal(n / 10) + [ZERO + n % 10]
  }

  predicate IsDigit(c: byte) { ZERO <= c < ZERO + 10 }

  predicate AllDigits(t: text) { forall c :: c in t ==> IsDigit(c) }

  function Value(t: text): nat
    requires AllDigits(t)
  {
    if t == [] then 0 else (assert IsDigit(t[|t| - 1]); Value(t[..|t| - 1]) * 10 + (t[|t| - 1] - ZERO))
  }

  lemma {:induction false} DecimalReads(n: nat)
    ensures Value(Decimal(n)) == n
  {
    if n >= 10 {
      var t := Decimal(n);
      assert t[..|t| - 1] == Decimal(n / 10);
      DecimalReads(n / 10);
    }
  }

  /** `padStart(6, "0")`. */
  function Padded(t: text): (r: text)
    ensures AllDigits(t) ==> AllDigits(r)
    decreases 6 - |t|
  {
    if |t| >= 6 then t else Padded([ZERO] + t)
  }

  lemma {:induction false} LeadingZero(t: text)
    requires AllDigits(t)
    ensures AllDigits([ZERO] + t) && Value([ZERO] + t) == Value(t)
  {
    var z := [ZERO] + t;
    if t == [] {
      assert z[..0] == [];
    } else {
      assert z[..|z| - 1] == [ZERO] + t[..|t| - 1];
      LeadingZero(t[..|t| - 1]);
    }
  }

  lemma {:induction false} PaddingReads(t: text)
    requires AllDigits(t)
    ensures Value(Padded(t)) == Value(t)
    decreases 6 - |t|
  {
    if |t| < 6 {
      LeadingZero(t);
      PaddingReads([ZERO] + t);
    }
  }

  // Which numbers are printed as they are written

  lemma {:induction false} DecimalHasNoLeadingZero(n: nat)
    ensures n >= 1 ==> Decimal(n)[0] != ZERO
    ensures n < 10 ==> |Decimal(n)| == 1
  {
    if n < 10 {
    } else {
      DecimalHasNoLeadingZero(n / 10);
    }
  }

  lemma {:induction false} WrittenWithoutZeros(t: text)
    requires AllDigits(t) && t != [] && (t[0] != ZERO || |t| == 1)
    ensures Decimal(Value(t)) == t
    ensures t[0] != ZERO ==> Value(t) >= 1
  {
    var init, last := t[..|t| - 1], t[|t| - 1];
    assert IsDigit(last);
    if |t| == 1 {
      assert Value(init) == 0;
    } else {
      assert init[0] == t[0];
      WrittenWithoutZeros(init);
      assert Value(t) == Value(init) * 10 + (last - ZERO);
      assert Value(t) / 10 == Value(init) && Value(t) % 10 == last - ZERO;
      assert t == init + [last];
    }
  }

  lemma {:induction false} PaddingRestoresZeros(t: text)
    requires AllDigits(t) && 1 <= |t| <= 6
    ensures Padded(Decimal(Value(t))) == Padded(t)
  {
    if t[0] != ZERO || |t| == 1 {
      WrittenWithoutZeros(t);
    } else {
      assert t == [ZERO] + t[1..];
      LeadingZero(t[1..]);
      PaddingRestoresZeros(t[1..]);
    }
  }

  /** `padStart(6, "0")`: zeros before the text, up to six characters. */
  lemma {:induction false} PaddedMeans(t: text)
    ensures |Padded(t)| == if |t| < 6 then 6 else |t|
    ensures Padded(t)[|Padded(t)| - |t|..] == t
    ensures forall i :: 0 <= i < |Padded(t)| - |t| ==> Padded(t)[i] == 48
    decreases 6 - |t|
  {
    if |t| >= 6 {
    } else {
      PaddedMeans([ZERO] + t);
      var r := Padded([ZERO] + t);
      assert r[|r| - |t| - 1..][1..] == r[|r| - |t|..];
    }
  }

  /** A number is printed as it was written exactly if it has six digits, or more and no zero before them. */
  lemma {:induction false} CanonicalNumber(t: text)
    requires AllDigits(t)
    ensures t == Padded(Decimal(Value(t))) <==> |t| == 6 || (|t| > 6 && t[0] != 48)
  {
    var d := Decimal(Value(t));
    PaddedMeans(d);
    if |t| == 6 {
      PaddingRestoresZeros(t);
    } else if |t| > 6 {
      if t[0] != ZERO {
        WrittenWithoutZeros(t);
      } else {
        DecimalHasNoLeadingZero(Value(t));
      }
    }
  }

  // Splitting at hyphens

  /** `split("-")`. */
  function Split(t: text): (parts: seq<text>)
    ensures |parts| >= 1
    ensures forall p :: p in parts ==> HYPHEN !in p
    ensures |parts| == 1 ==> parts[0] == t
  {
    if t == [] then [[]]
    else
      var later := Split(t[1..]);
      if t[0] == HYPHEN then [[]] + later
      else [[t[0]] + later[0]] + later[1..]
  }

  lemma {:induction false} SplitsAt(head: text, tail: text)
    requires HYPHEN !in head
    ensures Split(head + [HYPHEN] + tail) == [head] + Split(tail)
  {
    var t := head + [HYPHEN] + tail;
    if head == [] {
      assert t[1..] == tail;
    } else {
      assert t[0] == head[0] && t[1..] == head[1..] + [HYPHEN] + tail;
      SplitsAt(head[1..], tail);
      assert [head[0]] + head[1..] == head;
    }
  }

  lemma {:induction false} SplitsWhole(t: text)
    requires HYPHEN !in t
    ensures Split(t) == [t]
  {
    if t == [] {
    } else {
      SplitsWhole(t[1..]);
      assert [t[0]] + t[1..] == t;
    }
  }

  function Join(parts: seq<text>): text
    requires |parts| >= 1
  {
    if |parts| == 1 then parts[0] else parts[0] + [HYPHEN] + Join(parts[1..])
  }

  lemma {:induction false} SplitJoins(t: text)
    ensures Join(Split(t)) == t
  {
    if t == [] {
    } else {
      SplitJoins(t[1..]);
      var later := Split(t[1..]);
      if t[0] != HYPHEN {
        var parts := [[t[0]] + later[0]] + later[1..];
        assert parts[1..] == later[1..];
        assert Join(parts) == [t[0]] + Join(later);
      } else {
        assert ([[]] + later)[1..] == later;
      }
    }
  }

  /** Three hyphen-free parts, joined and split again. */
  lemma ThreeParts(a: text, b: text, c: text)
    requires HYPHEN !in a && HYPHEN !in b && HYPHEN !in c
    ensures Split(a + [HYPHEN] + (b + [HYPHEN] + c)) == [a, b, c]
  {
    SplitsAt(a, b + [HYPHEN] + c);
    SplitsAt(b, c);
    SplitsWhole(c);
  }

  // DIDs

  /** `source.copy(target, at)`: as much of the source as fits. */
  function Copy(source: bytes, target: bytes, at: nat): (r: bytes)
    requires at <= |target|
    ensures |r| == |target|
    ensures forall i :: 0 <= i < |r| ==>
              r[i] == if at <= i < at + |source| then source[i - at] else target[i]
  {
    var n := if |source| <= |target| - at then |source| else |target| - at;
    target[..at] + source[..n] + target[at + n..]
  }

  function PartOr(parts: seq<text>, i: nat, default: text): text {
    if i < |parts| then parts[i] else default
  }

  /**
   * `encodeDid`, for DIDs whose number is written in decimal digits; a number
   * of 2^32 or more is refused, as `writeUInt32BE` refuses it.
   */
  function EncodeDid(value: text): (r: Option<bytes>)
    ensures r.Some? ==> |r.value| == DID_LENGTH
  {
    var parts := Split(value);
    var number := PartOr(parts, 1, [ZERO]);
    if !AllDigits(number) || Value(number) >= 0x1_0000_0000 then None
    else
      var withPrefix := Copy(parts[0], Zeros(DID_LENGTH), 0);
      var withNumber := Copy(U32BE(Value(number)), withPrefix, 8);
      Some(Copy(PartOr(parts, 2, []), withNumber, 12))
  }

  /** `replace(/\0+$/g, "")`. */
  function WithoutTrailingNuls(t: text): (r: text)
    ensures r <= t
    ensures r != [] ==> r[|r| - 1] != 0
    ensures forall i :: |r| <= i < |t| ==> t[i] == 0
  {
    if t == [] || t[|t| - 1] != 0 then t else WithoutTrailingNuls(t[..|t| - 1])
  }

  /** `decodeDid` of up to twenty bytes; fewer than twelve hold no number to read. */
  function DecodeDid(value: bytes): text
    requires 12 <= |value| <= DID_LENGTH
  {
    WithoutTrailingNuls(value[..8]) + [HYPHEN] +
    (Padded(Decimal(ReadU32BE(value, 8))) + [HYPHEN] + WithoutTrailingNuls(value[12..]))
  }

  /** Three parts that fit their fields, the number zero-padded to six digits. */
  predicate Canonical(value: text) {
    var parts := Split(value);
    && |parts| == 3
    && Fits(parts[0]) && Fits(parts[2])
    && (forall c :: c in parts[1] ==> 48 <= c <= 57)
    && (|parts[1]| == 6 || (|parts[1]| > 6 && parts[1][0] != 48))
  }

  predicate Fits(t: text) {
    |t| <= 8 && (t != [] ==> t[|t| - 1] != 0)
  }

  lemma U32RoundTrip(v: nat)
    requires v < 0x1_0000_0000
    ensures |U32BE(v)| == 4 && ReadU32BE(U32BE(v), 0) == v
  {
  }

  lemma TrimsPadding(t: text, field: bytes)
    requires Fits(t) && |field| == 8
    requires forall i :: 0 <= i < 8 ==> field[i] == if i < |t| then t[i] else 0
    ensures WithoutTrailingNuls(field) == t
  {
    hide WithoutTrailingNuls;
    var r := WithoutTrailingNuls(field);
    assert t != [] ==> field[|t| - 1] == t[|t| - 1];
    assert |r| == |t|;
  }

  lemma NoHyphenInside(t: text, whole: bytes)
    requires t <= whole && HYPHEN !in whole
    ensures HYPHEN !in t
  {
    assert forall i :: 0 <= i < |t| ==> t[i] == whole[i];
  }

  lemma DigitsHaveNoHyphen(t: text)
    requires AllDigits(t)
    ensures HYPHEN !in t
  {
  }

  /** What the fields of an encoded DID hold. */
  lemma EncodedFields(value: text)
    requires EncodeDid(value).Some?
    ensures var e := EncodeDid(value).value;
            var parts := Split(value);
            && ReadU32BE(e, 8) == Value(PartOr(parts, 1, [ZERO]))
            && HYPHEN !in e[..8]
            && HYPHEN !in e[12..]
            && (forall i :: 0 <= i < 8 ==> e[i] == if i < |parts[0]| then parts[0][i] else 0)
            && (|parts| == 3 && |parts[0]| <= 12 ==>
                  forall i :: 0 <= i < 8 ==> e[12..][i] == if i < |parts[2]| then parts[2][i] else 0)
  {
    hide Value, Split;
    var parts := Split(value);
    var e := EncodeDid(value).value;
    var number := U32BE(Value(PartOr(parts, 1, [ZERO])));
    assert HYPHEN !in parts[0];
    assert HYPHEN !in PartOr(parts, 2, []);
    assert e[8] == number[0] && e[9] == number[1] && e[10] == number[2] && e[11] == number[3];
    U32RoundTrip(Value(PartOr(parts, 1, [ZERO])));
  }

  lemma JoinThree(a: text, b: text, c: text)
    ensures Join([a, b, c]) == a + [HYPHEN] + (b + [HYPHEN] + c)
  {
    assert Join([b, c]) == b + [HYPHEN] + c by {
      assert [b, c][1..] == [c];
    }
    assert [a, b, c][1..] == [b, c];
  }

  lemma CanonicalSurvives(value: text)
    requires EncodeDid(value).Some? && Canonical(value)
    ensures DecodeDid(EncodeDid(value).value) == value
  {
    var e := EncodeDid(value).value;
    var parts := Split(value);
    EncodedFields(value);
    CanonicalNumber(parts[1]);
    hide EncodeDid, Split, Padded, Value, WithoutTrailingNuls, Decimal, ReadU32BE;
    TrimsPadding(parts[0], e[..8]);
    TrimsPadding(parts[2], e[12..]);
    SplitJoins(value);
    assert parts == [parts[0], parts[1], parts[2]];
    JoinThree(parts[0], parts[1], parts[2]);
  }

  lemma DecodedIsCanonical(e: bytes)
    requires |e| == DID_LENGTH && HYPHEN !in e[..8] && HYPHEN !in e[12..]
    ensures Canonical(DecodeDid(e))
  {
    var n := ReadU32BE(e, 8);
    var a, b, c := WithoutTrailingNuls(e[..8]), Padded(Decimal(n)), WithoutTrailingNuls(e[12..]);
    hide Split, Padded, Value, WithoutTrailingNuls, Decimal, ReadU32BE;
    NoHyphenInside(a, e[..8]);
    NoHyphenInside(c, e[12..]);
    DigitsHaveNoHyphen(b);
    ThreeParts(a, b, c);
    DecimalReads(n);
    PaddingReads(Decimal(n));
    CanonicalNumber(b);
  }

  /** An example, character by character: ABC-123456-XYZ survives, its number in bytes 8 to 11. */
  lemma DidExample()
    ensures var did := [65, 66, 67, 45, 49, 50, 51, 52, 53, 54, 45, 88, 89, 90];
            && EncodeDid(did).Some?
            && ReadU32BE(EncodeDid(did).value, 8) == 123456
            && DecodeDid(EncodeDid(did).value) == did
  {
    var did := [65, 66, 67, 45, 49, 50, 51, 52, 53, 54, 45, 88, 89, 90];
    ExampleParts();
    ExampleValue();
    ExampleEncodes();
    EncodedFields(did);
    hide EncodeDid, DecodeDid, Split, Value, AllDigits, Canonical, ReadU32BE;
    ExampleIsCanonical();
    CanonicalSurvives(did);
  }

  lemma ExampleParts()
    ensures Split([65, 66, 67, 45, 49, 50, 51, 52, 53, 54, 45, 88, 89, 90]) ==
            [[65, 66, 67], [49, 50, 51, 52, 53, 54], [88, 89, 90]]
  {
    var a, b, c: text := [65, 66, 67], [49, 50, 51, 52, 53, 54], [88, 89, 90];
    assert a + [HYPHEN] + (b + [HYPHEN] + c) == [65, 66, 67, 45, 49, 50, 51, 52, 53, 54, 45, 88, 89, 90];
    ThreeParts(a, b, c);
  }

  lemma ExampleEncodes()
    ensures EncodeDid([65, 66, 67, 45, 49, 50, 51, 52, 53, 54, 45, 88, 89, 90]).Some?
  {
    ExampleParts();
    ExampleValue();
    hide Split, Value, Copy, U32BE;
  }

  lemma ExampleIsCanonical()
    ensures Canonical([65, 66, 67, 45, 49, 50, 51, 52, 53, 54, 45, 88, 89, 90])
  {
    ExampleParts();
    ExampleValue();
    hide Split, Value;
  }

  lemma ExampleValue()
    ensures var b: text := [49, 50, 51, 52, 53, 54]; AllDigits(b) && Value(b) == 123456
  {
    var b: text := [49, 50, 51, 52, 53, 54];
    assert b[..5] == [49, 50, 51, 52, 53];
    assert b[..5][..4] == [49, 50, 51, 52];
    assert b[..5][..4][..3] == [49, 50, 51];
    assert Value([49]) == 1 && Value([49, 50]) == 12 && Value([49, 50, 51]) == 123;
    assert Value([49, 50, 51, 52]) == 1234 && Value([49, 50, 51, 52, 53]) == 12345;
  }

  /**
   * The DID codec is lossless on exactly the canonical DIDs: decoding what
   * `encodeDid` wrote gives the DID back if and only if it is canonical.
   */
  lemma DidRoundTrip(value: text)
    requires EncodeDid(value).Some?
    ensures DecodeDid(EncodeDid(value).value) == value <==> Canonical(value)
  {
    hide DecodeDid, Canonical;
    EncodedFields(value);
    DecodedIsCanonical(EncodeDid(value).value);
    if Canonical(value) {
      CanonicalSurvives(value);
    }
  }

  // Cloud addresses

  const TABLE: bytes := [
    0x49, 0x59, 0x43, 0x3d, 0xb5, 0xbf, 0x6d, 0xa3, 0x47, 0x53, 0x4f, 0x61, 0x65, 0xe3, 0x71, 0xe9, 0x67, 0x7f,
    0x02, 0x03, 0x0b, 0xad, 0xb3, 0x89, 0x2b, 0x2f, 0x35, 0xc1, 0x6b, 0x8b, 0x95, 0x97, 0x11, 0xe5, 0xa7, 0x0d,
    0xef, 0xf1, 0x05, 0x07, 0x83, 0xfb, 0x9d, 0x3b, 0xc5, 0xc7, 0x13, 0x17, 0x1d, 0x1f, 0x25, 0x29, 0xd3, 0xdf]

  /** The key table once more, in decimal. */
  lemma TableInDecimal()
    ensures |TABLE| == 54
    ensures TABLE == [
              73, 89, 67, 61, 181, 191, 109, 163, 71, 83, 79, 97, 101, 227, 113, 233, 103, 127,
              2, 3, 11, 173, 179, 137, 43, 47, 53, 193, 107, 139, 149, 151, 17, 229, 167, 13,
              239, 241, 5, 7, 131, 251, 157, 59, 197, 199, 19, 23, 29, 31, 37, 41, 211, 223]
  {
  }

  function Pow2(n: nat): nat { if n == 0 then 1 else 2 * Pow2(n - 1) }

  /** Exclusive or of the low `n` bits. */
  function XorBits(a: nat, b: nat, n: nat): (r: nat)
    ensures r < Pow2(n)
  {
    if n == 0 then 0
    else 2 * XorBits(a / 2, b / 2, n - 1) + if a % 2 == b % 2 then 0 else 1
  }

  function Xor(a: byte, b: byte): byte {
    assert Pow2(8) == 256;
    XorBits(a, b, 8)
  }

  function Bit(a: nat, k: nat): nat { if k == 0 then a % 2 else Bit(a / 2, k - 1) }

  /** Each of the low bits is set in the result exactly if it differs. */
  lemma {:induction false} XorBitsMeans(a: nat, b: nat, n: nat, k: nat)
    requires k < n
    ensures Bit(XorBits(a, b, n), k) == if Bit(a, k) == Bit(b, k) then 0 else 1
  {
    if k == 0 {
    } else {
      XorBitsMeans(a / 2, b / 2, n - 1, k - 1);
      assert XorBits(a, b, n) / 2 == XorBits(a / 2, b / 2, n - 1);
    }
  }

  lemma {:induction false} XorMeans(a: byte, b: byte)
    ensures forall k :: 0 <= k < 8 ==> Bit(Xor(a, b), k) == if Bit(a, k) == Bit(b, k) then 0 else 1
  {
    assert Pow2(8) == 256;
    forall k | 0 <= k < 8 ensures Bit(Xor(a, b), k) == if Bit(a, k) == Bit(b, k) then 0 else 1 {
      XorBitsMeans(a, b, 8, k);
    }
  }

  lemma {:induction false} XorBitsUndo(a: nat, b: nat, n: nat)
    requires a < Pow2(n)
    ensures XorBits(XorBits(a, b, n), b, n) == a && XorBits(b, XorBits(b, a, n), n) == a
  {
    if n == 0 {
    } else {
      XorBitsUndo(a / 2, b / 2, n - 1);
      var r, s := XorBits(a, b, n), XorBits(b, a, n);
      assert r / 2 == XorBits(a / 2, b / 2, n - 1) && s / 2 == XorBits(b / 2, a / 2, n - 1);
      assert r % 2 == s % 2 == if a % 2 == b % 2 then 0 else 1;
    }
  }

  lemma XorUndoes(a: byte, b: byte)
    ensures Xor(Xor(a, b), b) == a && Xor(b, Xor(b, a)) == a
  {
    assert Pow2(8) == 256;
    XorBitsUndo(a, b, 8);
  }

  /** The key byte before index `|out|`: 57, then every byte decoded so far. */
  function Chain(out: bytes): byte {
    if out == [] then 57 else Xor(Chain(out[..|out| - 1]), out[|out| - 1])
  }

  function Mask(out: bytes): byte {
    Xor(Chain(out), TABLE[|out| % |TABLE|])
  }

  /** Two characters as one byte; characters outside A to P wrap as they do when stored. */
  function Nibbles(hi: byte, lo: byte): byte {
    ((hi - 65) * 16 + lo - 65) % 256
  }

  /** The byte stage of `decodeCloudAddresses`, for the first `n` bytes. */
  function DecodeAddresses(encoded: text, n: nat): (out: bytes)
    requires 2 * n <= |encoded|
    ensures |out| == n
  {
    if n == 0 then []
    else
      var out := DecodeAddresses(encoded, n - 1);
      out + [Xor(Mask(out), Nibbles(encoded[2 * n - 2], encoded[2 * n - 1]))]
  }

  function Letters(b: byte): text {
    [65 + b / 16, 65 + b % 16]
  }

  function EncodeAddresses(out: bytes): (encoded: text)
    ensures |encoded| == 2 * |out|
  {
    if out == [] then []
    else
      var before := out[..|out| - 1];
      EncodeAddresses(before) + Letters(Xor(Mask(before), out[|out| - 1]))
  }

  /** Only the letters A to P. */
  predicate AllLetters(t: text) { forall c :: c in t ==> 65 <= c < 81 }

  lemma LettersRoundTrip(b: byte)
    ensures var t := Letters(b); AllLetters(t) && Nibbles(t[0], t[1]) == b
  {
  }

  lemma NibblesRoundTrip(hi: byte, lo: byte)
    requires 65 <= hi < 81 && 65 <= lo < 81
    ensures Letters(Nibbles(hi, lo)) == [hi, lo]
  {
  }

  lemma {:induction false} DecodePrefix(a: text, b: text, n: nat)
    requires 2 * n <= |a|
    ensures DecodeAddresses(a + b, n) == DecodeAddresses(a, n)
  {
    hide Xor, Mask, Nibbles;
    if n == 0 {
    } else {
      DecodePrefix(a, b, n - 1);
    }
  }

  /** One more byte on both sides. */
  lemma {:induction false} AddressStep(before: text, out: bytes, last: byte)
    requires |before| == 2 * |out| && DecodeAddresses(before, |out|) == out
    ensures var t := before + Letters(Xor(Mask(out), last));
            |t| == 2 * (|out| + 1) && DecodeAddresses(t, |out| + 1) == out + [last]
  {
    hide Xor, Mask, Nibbles;
    var b := Xor(Mask(out), last);
    LettersRoundTrip(b);
    DecodePrefix(before, Letters(b), |out|);
    XorUndoes(last, Mask(out));
  }

  /** Every byte string is the decoding of some text over A to P... */
  lemma {:induction false} AddressesDecodeEncoded(out: bytes)
    ensures AllLetters(EncodeAddresses(out))
    ensures DecodeAddresses(EncodeAddresses(out), |out|) == out
  {
    hide DecodeAddresses, Xor, Mask, Letters;
    if out == [] {
      assert DecodeAddresses([], 0) == [];
    } else {
      var before, last := out[..|out| - 1], out[|out| - 1];
      AddressesDecodeEncoded(before);
      AddressStep(EncodeAddresses(before), before, last);
      LettersRoundTrip(Xor(Mask(before), last));
      assert before + [last] == out;
    }
  }

  /** One more character pair on both sides. */
  lemma {:induction false} LetterStep(before: text, out: bytes, hi: byte, lo: byte)
    requires |before| == 2 * |out| && DecodeAddresses(before, |out|) == out
    requires EncodeAddresses(out) == before
    requires 65 <= hi < 81 && 65 <= lo < 81
    ensures EncodeAddresses(DecodeAddresses(before + [hi, lo], |out| + 1)) == before + [hi, lo]
  {
    hide Xor, Mask, Letters, Nibbles;
    DecodePrefix(before, [hi, lo], |out|);
    var b := Nibbles(hi, lo);
    var next := out + [Xor(Mask(out), b)];
    assert DecodeAddresses(before + [hi, lo], |out| + 1) == next;
    XorUndoes(b, Mask(out));
    NibblesRoundTrip(hi, lo);
    assert next[..|next| - 1] == out;
  }

  lemma NothingEncoded()
    ensures EncodeAddresses(DecodeAddresses([], 0)) == []
  {
  }

  lemma LettersOfPrefix(t: text, n: nat)
    requires AllLetters(t) && n + 2 <= |t|
    ensures AllLetters(t[..n]) && 65 <= t[n] < 81 && 65 <= t[n + 1] < 81
  {
    assert t[n] in t && t[n + 1] in t;
    assert forall c :: c in t[..n] ==> c in t;
  }

  /** ... and of only one: decoding loses nothing. */
  lemma {:induction false} AddressesEncodeDecoded(t: text, n: nat)
    requires AllLetters(t) && |t| == 2 * n
    ensures EncodeAddresses(DecodeAddresses(t, n)) == t
  {
    hide *;
    if n == 0 {
      NothingEncoded();
      assert t == [];
    } else {
      var m := 2 * (n - 1);
      var before, hi, lo := t[..m], t[m], t[m + 1];
      LettersOfPrefix(t, m);
      AddressesEncodeDecoded(before, n - 1);
      LetterStep(before, DecodeAddresses(before, n - 1), hi, lo);
      assert t == before + [hi, lo];
    }
  }

  lemma {:induction false} ChainStep(out: bytes, b: byte)
    ensures Chain(out + [b]) == Xor(Chain(out), b)
  {
    assert (out + [b])[..|out|] == out;
  }

  lemma {:induction false} DecodeStep(encoded: text, n: nat)
    requires 2 * n + 2 <= |encoded|
    ensures var out := DecodeAddresses(encoded, n);
            DecodeAddresses(encoded, n + 1) == out + [Xor(Mask(out), Nibbles(encoded[2 * n], encoded[2 * n + 1]))]
  {
    hide Xor, Nibbles, Mask;
  }

  /**
   * How: the letters as a number, the first one worth sixteen, exclusive or the
   * table's byte, exclusive or 57 and all the bytes before.
   */
  lemma MaskedByte(out: bytes, hi: byte, lo: byte)
    ensures Xor(Mask(out), Nibbles(hi, lo)) ==
            Xor(Xor(Chain(out), TABLE[|out| % |TABLE|]), ((hi as int - 65) * 16 + (lo as int - 65)) % 256)
  {
    hide Xor, Chain;
  }

  /** Each byte of the byte stage is made from its two letters and the bytes before it. */
  lemma {:induction false} AddressByte(encoded: text, n: nat, i: nat)
    requires i < n && 2 * n <= |encoded|
    ensures var out := DecodeAddresses(encoded, n);
            && out[..i] == DecodeAddresses(encoded, i)
            && out[i] == Xor(Mask(out[..i]), Nibbles(encoded[2 * i], encoded[2 * i + 1]))
  {
    hide Xor, Mask, Nibbles, DecodeAddresses;
    DecodeStep(encoded, n - 1);
    var before, out := DecodeAddresses(encoded, n - 1), DecodeAddresses(encoded, n);
    if i == n - 1 {
      assert out[..i] == before;
    } else {
      AddressByte(encoded, n - 1, i);
      assert out[..i] == before[..i] && out[i] == before[i];
    }
  }

  /** The loops of `decodeCloudAddresses`, which recompute the chain for every byte. */
  method DecodeCloudAddresses(encoded: text) returns (result: bytes)
    ensures result == DecodeAddresses(encoded, |encoded| / 2)
  {
    hide Xor, Nibbles, DecodeAddresses, Chain;
    NothingDecoded(encoded);
    var out := new byte[|encoded| / 2];
    for i := 0 to out.Length
      invariant out[..i] == DecodeAddresses(encoded, i)
    {
      var z: byte := 57;
      ghost var done := out[..i];
      for j := 0 to i
        invariant z == Chain(done[..j])
        invariant out[..i] == done
      {
        assert done[..j + 1] == done[..j] + [out[j]];
        ChainStep(done[..j], out[j]);
        z := Xor(z, out[j]);
      }
      assert done[..i] == done;
      DecodeStep(encoded, i);
      out[i] := Xor(Xor(z, TABLE[i % |TABLE|]), Nibbles(encoded[2 * i], encoded[2 * i + 1]));
      assert out[..i + 1] == done + [out[i]];
    }
    assert out[..] == out[..out.Length];
    return out[..];
  }

  lemma NothingDecoded(encoded: text)
    ensures DecodeAddresses(encoded, 0) == [] && Chain([]) == 57
  {
  }

  /** The linear form: one running chain byte instead of the inner loop. */
  function DecodeRunning(encoded: text, out: bytes, z: byte): bytes
    requires 2 * |out| <= |encoded|
    decreases |encoded| - |out|
  {
    if 2 * |out| + 2 > |encoded| then out
    else
      var b := Xor(Xor(z, TABLE[|out| % |TABLE|]), Nibbles(encoded[2 * |out|], encoded[2 * |out| + 1]));
      DecodeRunning(encoded, out + [b], Xor(z, b))
  }

  lemma {:induction false} RunningAgrees(encoded: text, n: nat)
    requires 2 * n <= |encoded|
    ensures var out := DecodeAddresses(encoded, n);
            DecodeRunning(encoded, out, Chain(out)) == DecodeAddresses(encoded, |encoded| / 2)
    decreases |encoded| - n
  {
    hide Xor, Nibbles;
    if 2 * n + 2 <= |encoded| {
      var out, next := DecodeAddresses(encoded, n), DecodeAddresses(encoded, n + 1);
      assert next[..|next| - 1] == out;
      RunningAgrees(encoded, n + 1);
    }
  }
}
