/**
  Key derivation inputs: the byte encoding of (type, collection, token id, deal number), and the
  keys sliced from HKDF's output (packages/crypto/src/lib/eft-derivation.ts).
 */
module Derivation {
  import opened Wrappers
  import opened Cbc
  import opened Hkdf

  // ---------- numberToBuffer ----------

  const DIGITS := "0123456789abcdef"

  function HexValue(ch: char): (v: nat)
    ensures v < 16
  {
    if '0' <= ch <= '9' then (ch - '0') as nat else if 'a' <= ch <= 'f' then (ch - 'a') as nat + 10 else 0
  }

  /** Number.prototype.toString(16) on a natural number. */
  function ToHex(n: nat): (s: string)
    ensures s != []
  {
    if n < 16 then [DIGITS[n]] else ToHex(n / 16) + [DIGITS[n % 16]]
  }

  function OctetOf(high: char, low: char): Byte {
    (16 * HexValue(high) + HexValue(low)) as Byte
  }

  /** Buffer.from(s, 'hex') on an even number of digits. */
  function ParseHex(s: string): (r: Bytes)
    requires |s| % 2 == 0
    ensures |r| == |s| / 2
  {
    if s == [] then []
    else
      var n := |s| - 2;
      ParseHex(s[..n]) + [OctetOf(s[n], s[n + 1])]
  }

  function EvenDigits(hex: string): (r: string)
    ensures |r| % 2 == 0
  {
    if |hex| % 2 == 1 then ['0'] + hex else hex
  }

  function NumberToBuffer(n: nat): Bytes {
    ParseHex(EvenDigits(ToHex(n)))
  }

  function HexNumber(s: string): nat {
    if s == [] then 0 else 16 * HexNumber(s[..|s| - 1]) + HexValue(s[|s| - 1])
  }

  function BigEndian(b: Bytes): nat {
    if b == [] then 0 else 256 * BigEndian(b[..|b| - 1]) + b[|b| - 1] as int
  }

  lemma {:induction false} ToHexIsNumber(n: nat)
    ensures HexNumber(ToHex(n)) == n
  {
    assert forall d :: 0 <= d < 16 ==> HexValue(DIGITS[d]) == d;
    if n < 16 {
      assert ToHex(n)[..0] == [];
    } else {
      ToHexIsNumber(n / 16);
      assert ToHex(n)[..|ToHex(n)| - 1] == ToHex(n / 16);
    }
  }

  lemma {:induction false} LeadingZeroDigit(s: string)
    ensures HexNumber(['0'] + s) == HexNumber(s)
  {
    if s == [] {
      assert (['0'] + s)[..0] == [];
    } else {
      LeadingZeroDigit(s[..|s| - 1]);
      assert (['0'] + s)[..|s|] == ['0'] + s[..|s| - 1];
    }
  }

  lemma LastOctet(b: Bytes, v: nat)
    requires v < 256
    ensures BigEndian(b + [v as Byte]) == 256 * BigEndian(b) + v
  {
    assert (b + [v as Byte])[..|b|] == b;
  }

  lemma LastTwoDigits(s: string)
    requires |s| >= 2
    ensures HexNumber(s) == 256 * HexNumber(s[..|s| - 2]) + 16 * HexValue(s[|s| - 2]) + HexValue(s[|s| - 1])
  {
    assert s[..|s| - 1][..|s| - 2] == s[..|s| - 2];
  }

  lemma {:induction false} ParseHexIsNumber(s: string)
    requires |s| % 2 == 0
    ensures BigEndian(ParseHex(s)) == HexNumber(s)
  {
    if s != [] {
      var n := |s| - 2;
      ParseHexIsNumber(s[..n]);
      LastOctet(ParseHex(s[..n]), 16 * HexValue(s[n]) + HexValue(s[n + 1]));
      LastTwoDigits(s);
    }
  }

  /** The buffer is the number in big-endian base 256, so distinct numbers have distinct buffers. */
  lemma NumberToBufferDecodes(n: nat)
    ensures BigEndian(NumberToBuffer(n)) == n
  {
    var hex := ToHex(n);
    ToHexIsNumber(n);
    LeadingZeroDigit(hex);
    ParseHexIsNumber(EvenDigits(hex));
  }

  lemma NumberToBufferInjective(m: nat, n: nat)
    ensures NumberToBuffer(m) == NumberToBuffer(n) ==> m == n
  {
    NumberToBufferDecodes(m);
    NumberToBufferDecodes(n);
  }

  /** One byte exactly for numbers below 256. */
  lemma OneByteIff(n: nat)
    ensures |NumberToBuffer(n)| == 1 <==> n < 256
  {
    if n >= 256 {
      assert |ToHex(n / 16 / 16)| >= 1;
      assert ToHex(n / 16) == ToHex(n / 16 / 16) + [DIGITS[n / 16 % 16]];
    } else if n >= 16 {
      assert ToHex(n / 16) == [DIGITS[n / 16]];
    }
  }

  // ---------- Info strings ----------

  const AES_KEY_TYPE: Byte := 1
  const RSA_KEY_TYPE: Byte := 2

  function AesInfo(collection: Bytes, token: nat): Bytes {
    [AES_KEY_TYPE] + collection + NumberToBuffer(token)
  }

  function RsaInfo(collection: Bytes, token: nat, deal: nat): Bytes {
    [RSA_KEY_TYPE] + collection + NumberToBuffer(token) + NumberToBuffer(deal)
  }

  /** The octets of the info strings: the key type, the collection, and the numbers. */
  lemma InfoLayout(c: Bytes, t: nat, deal: nat)
    ensures var x := AesInfo(c, t); x[0] == 1 && x[1..|c| + 1] == c && x[|c| + 1..] == NumberToBuffer(t)
    ensures
      var x := RsaInfo(c, t, deal);
      var m := |c| + 1 + |NumberToBuffer(t)|;
      && |c| < m <= |x| && x[0] == 2 && x[1..|c| + 1] == c
      && x[|c| + 1..m] == NumberToBuffer(t) && x[m..] == NumberToBuffer(deal)
  {
    hide NumberToBuffer;
  }

  lemma AesInfoInjective(c: Bytes, t: nat, d: Bytes, u: nat)
    requires |c| == |d|
    ensures AesInfo(c, t) == AesInfo(d, u) ==> c == d && t == u
  {
    if AesInfo(c, t) != AesInfo(d, u) { return; }
    assert AesInfo(c, t)[1..1 + |c|] == c && AesInfo(c, t)[1 + |c|..] == NumberToBuffer(t);
    assert AesInfo(d, u)[1..1 + |d|] == d && AesInfo(d, u)[1 + |d|..] == NumberToBuffer(u);
    NumberToBufferInjective(t, u);
  }

  lemma AesInfoIsNoRsaInfo(c: Bytes, t: nat, d: Bytes, u: nat, deal: nat)
    ensures AesInfo(c, t) != RsaInfo(d, u, deal)
  {
    assert AesInfo(c, t)[0] == AES_KEY_TYPE && RsaInfo(d, u, deal)[0] == RSA_KEY_TYPE;
  }

  /** Do RSA infos with deal numbers below the bound, for addresses of one length, tell all their
      parts apart? */
  ghost predicate Distinguishes(bound: nat) {
    forall c: Bytes, t: nat, deal: nat, d: Bytes, u: nat, deed: nat
      {:trigger RsaInfo(c, t, deal), RsaInfo(d, u, deed)} ::
      |c| == |d| && deal < bound && deed < bound && RsaInfo(c, t, deal) == RsaInfo(d, u, deed)
      ==> c == d && t == u && deal == deed
  }

  lemma RsaInfoInjective(c: Bytes, t: nat, deal: nat, d: Bytes, u: nat, deed: nat)
    requires |c| == |d| && deal < 256 && deed < 256
    ensures RsaInfo(c, t, deal) == RsaInfo(d, u, deed) ==> c == d && t == u && deal == deed
  {
    hide NumberToBuffer;
    var x, y := RsaInfo(c, t, deal), RsaInfo(d, u, deed);
    if x != y { return; }
    OneByteIff(deal);
    OneByteIff(deed);
    var n := |x| - 1;
    assert x[1..1 + |c|] == c && x[1 + |c|..n] == NumberToBuffer(t) && x[n..] == NumberToBuffer(deal);
    assert y[1..1 + |d|] == d && y[1 + |d|..n] == NumberToBuffer(u) && y[n..] == NumberToBuffer(deed);
    NumberToBufferInjective(t, u);
    NumberToBufferInjective(deal, deed);
  }

  lemma HexOfOctetAppended(n: nat, v: nat)
    requires n > 0 && v < 256
    ensures ToHex(256 * n + v) == ToHex(n) + [DIGITS[v / 16], DIGITS[v % 16]]
  {
    var m := 256 * n + v;
    assert m / 16 == 16 * n + v / 16 && m % 16 == v % 16;
    assert m / 16 / 16 == n && m / 16 % 16 == v / 16;
    assert ToHex(m / 16) == ToHex(n) + [DIGITS[v / 16]];
  }

  lemma DigitValue(d: nat)
    requires d < 16
    ensures HexValue(DIGITS[d]) == d
  {
  }

  /** Appending an octet to a positive number appends it to the buffer. */
  lemma OctetAppended(n: nat, v: nat)
    requires n > 0 && v < 256
    ensures NumberToBuffer(256 * n + v) == NumberToBuffer(n) + [v as Byte]
  {
    HexOfOctetAppended(n, v);
    DigitValue(v / 16);
    DigitValue(v % 16);
    assert 16 * (v / 16) + v % 16 == v;
    hide ToHex, HexValue, ParseHex;
    EvenAppend(ToHex(n), DIGITS[v / 16], DIGITS[v % 16]);
    ParseAppend(EvenDigits(ToHex(n)), DIGITS[v / 16], DIGITS[v % 16]);
  }

  lemma EvenAppend(s: string, a: char, b: char)
    ensures EvenDigits(s + [a, b]) == EvenDigits(s) + [a, b]
  {
  }

  lemma ParseAppend(s: string, a: char, b: char)
    requires |s| % 2 == 0
    ensures ParseHex(s + [a, b]) == ParseHex(s) + [OctetOf(a, b)]
  {
    hide HexValue, OctetOf;
    var t := s + [a, b];
    assert t[..|t| - 2] == s && t[|t| - 2] == a && t[|t| - 1] == b;
  }

  lemma OneDigit(v: nat)
    requires v < 16
    ensures NumberToBuffer(v) == [v as Byte]
  {
    DigitValue(v);
    assert HexValue('0') == 0;
    var digits := EvenDigits(ToHex(v));
    assert digits == ['0', DIGITS[v]];
    assert digits[..0] == [];
  }

  lemma TwoDigits(v: nat)
    requires 16 <= v < 256
    ensures NumberToBuffer(v) == [v as Byte]
  {
    DigitValue(v / 16);
    DigitValue(v % 16);
    assert ToHex(v) == ToHex(v / 16) + [DIGITS[v % 16]] && ToHex(v / 16) == [DIGITS[v / 16]];
    var digits := EvenDigits(ToHex(v));
    assert digits == [DIGITS[v / 16], DIGITS[v % 16]];
    assert digits[..0] == [];
  }

  /** The buffer octet by octet: one for a number below 256, and otherwise the buffer of the quotient
      followed by the remainder; so it never begins with a zero octet, but for the number 0. */
  lemma {:induction false} OctetByOctet(n: nat)
    ensures NumberToBuffer(n) == if n < 256 then [n as Byte] else NumberToBuffer(n / 256) + [(n % 256) as Byte]
    ensures NumberToBuffer(n) != [] && (NumberToBuffer(n)[0] == 0 <==> n == 0)
  {
    hide NumberToBuffer;
    if n < 16 {
      OneDigit(n);
    } else if n < 256 {
      TwoDigits(n);
    } else {
      OctetAppended(n / 256, n % 256);
      OctetByOctet(n / 256);
    }
  }

  /** Token 1 with deal 256 and token 257 with deal 0 have the same RSA info. */
  lemma RsaInfoCollision(c: Bytes)
    ensures RsaInfo(c, 1, 256) == RsaInfo(c, 257, 0)
  {
    hide NumberToBuffer;
    OctetAppended(1, 0);
    OctetAppended(1, 1);
    OneDigit(0);
    OneDigit(1);
    assert NumberToBuffer(1) + NumberToBuffer(256) == NumberToBuffer(257) + NumberToBuffer(0);
    assert RsaInfo(c, 1, 256) == [RSA_KEY_TYPE] + c + (NumberToBuffer(1) + NumberToBuffer(256));
    assert RsaInfo(c, 257, 0) == [RSA_KEY_TYPE] + c + (NumberToBuffer(257) + NumberToBuffer(0));
  }

  /** The deal numbers for which the RSA info is injective are exactly those below 256. */
  lemma DealBoundIsExact(bound: nat)
    ensures Distinguishes(bound) <==> bound <= 256
  {
    if bound <= 256 {
      forall c: Bytes, t: nat, deal: nat, d: Bytes, u: nat, deed: nat |
        |c| == |d| && deal < bound && deed < bound && RsaInfo(c, t, deal) == RsaInfo(d, u, deed)
        ensures c == d && t == u && deal == deed
      {
        RsaInfoInjective(c, t, deal, d, u, deed);
      }
    } else {
      RsaInfoCollision([]);
    }
  }

  // ---------- Derived keys ----------

  datatype AesKeyAndIv = AesKeyAndIv(key: Bytes, iv: Bytes)

  const AES_BITS := 256 + 128
  const RSA_BITS := 4096

  /** hkdfExtract and hkdfExpand; never a throw at these lengths. */
  function HkdfAux(hmac: Hmac, salt: Bytes, ikm: Bytes, info: Bytes, bits: nat): Option<Bytes> {
    Expanded(hmac, hmac(salt, ikm), info, bits)
  }

  function AesDerivation(hmac: Hmac, seed: Bytes, salt: Bytes, collection: Bytes, token: nat): Option<AesKeyAndIv> {
    var okm := HkdfAux(hmac, salt, seed, AesInfo(collection, token), AES_BITS);
    if okm.None? || |okm.value| < 48 then None else Some(AesKeyAndIv(okm.value[..32], okm.value[32..48]))
  }

  function RsaSeed(hmac: Hmac, seed: Bytes, salt: Bytes, collection: Bytes, token: nat, deal: nat): Option<Bytes> {
    HkdfAux(hmac, salt, seed, RsaInfo(collection, token, deal), RSA_BITS)
  }

  /** The AES key and vector are the standard's first 32 and next 16 octets, and the RSA seed is
      the standard's 512 octets. */
  lemma DerivedKeysAreStandard(hmac: Hmac, seed: Bytes, salt: Bytes, collection: Bytes, token: nat, deal: nat)
    requires IsHmac(hmac)
    ensures
      var okm := Expand(hmac, hmac(salt, seed), AesInfo(collection, token), 48);
      AesDerivation(hmac, seed, salt, collection, token) == Some(AesKeyAndIv(okm[..32], okm[32..]))
    ensures RsaSeed(hmac, seed, salt, collection, token, deal) ==
      Some(Expand(hmac, hmac(salt, seed), RsaInfo(collection, token, deal), 512))
  {
    var prk := hmac(salt, seed);
    AgreesWithStandard(hmac, prk, AesInfo(collection, token), AES_BITS);
    ExactlyStandardIff(hmac, prk, RsaInfo(collection, token, deal), RSA_BITS);
    var r := Expanded(hmac, prk, AesInfo(collection, token), AES_BITS).value;
    assert r[..48][..32] == r[..32] && r[..48][32..] == r[32..48];
  }
}
