/**
  Bytes, an abstract 16-byte block cipher, CBC mode (section 6.2 of NIST SP 800-38A) and block
  padding (section 6.3 of RFC 5652).
 */
module Cbc {
  import opened Wrappers

  newtype Byte = x: int | 0 <= x < 256
  type Bytes = seq<Byte>
  const BLOCK := 16

  /** Encryption and decryption of one block under a key. */
  datatype Cipher = Cipher(enc: (Bytes, Bytes) -> Bytes, dec: (Bytes, Bytes) -> Bytes)

  /** For every key the cipher permutes blocks and `dec` is the inverse of `enc`. */
  ghost predicate Permutes(c: Cipher) {
    && (forall k, b :: |b| == BLOCK ==> |c.enc(k, b)| == BLOCK && c.dec(k, c.enc(k, b)) == b)
    && (forall k, b :: |b| == BLOCK ==> |c.dec(k, b)| == BLOCK && c.enc(k, c.dec(k, b)) == b)
  }

  function Enc(c: Cipher, key: Bytes, b: Bytes): (r: Bytes)
    requires Permutes(c) && |b| == BLOCK
    ensures |r| == BLOCK
  {
    c.enc(key, b)
  }

  function Dec(c: Cipher, key: Bytes, b: Bytes): (r: Bytes)
    requires Permutes(c) && |b| == BLOCK
    ensures |r| == BLOCK
  {
    c.dec(key, b)
  }

  lemma BlockInverse(c: Cipher, key: Bytes, b: Bytes)
    requires Permutes(c) && |b| == BLOCK
    ensures Dec(c, key, Enc(c, key, b)) == b && Enc(c, key, Dec(c, key, b)) == b
  {
  }

  function Pow2(n: nat): (r: nat)
    ensures r > 0
  {
    if n == 0 then 1 else 2 * Pow2(n - 1)
  }

  /** Exclusive or of two n-bit numbers, bit by bit. */
  function XorBits(n: nat, a: nat, b: nat): (r: nat)
    requires a < Pow2(n) && b < Pow2(n)
    ensures r < Pow2(n)
  {
    if n == 0 then 0 else (a + b) % 2 + 2 * XorBits(n - 1, a / 2, b / 2)
  }

  lemma Parity(a: nat, b: nat, rest: nat)
    ensures ((a + b) % 2 + 2 * rest) / 2 == rest
    ensures ((a + b) % 2 + 2 * rest + b) % 2 == a % 2
  {
  }

  lemma {:induction false} XorBitsTwice(n: nat, a: nat, b: nat)
    requires a < Pow2(n) && b < Pow2(n)
    ensures XorBits(n, XorBits(n, a, b), b) == a
  {
    if n > 0 {
      var rest := XorBits(n - 1, a / 2, b / 2);
      XorBitsTwice(n - 1, a / 2, b / 2);
      Parity(a, b, rest);
    }
  }

  lemma EightBits()
    ensures Pow2(8) == 256
  {
    assert Pow2(4) == 16;
  }

  /** Bit j of a number. */
  function Bit(a: nat, j: nat): nat {
    if j == 0 then a % 2 else Bit(a / 2, j - 1)
  }

  /** Each bit is the sum of the two, without a carry. */
  lemma {:induction false} XorBitsAt(n: nat, a: nat, b: nat, j: nat)
    requires a < Pow2(n) && b < Pow2(n)
    ensures Bit(XorBits(n, a, b), j) == (Bit(a, j) + Bit(b, j)) % 2
  {
    if n == 0 {
      NoBits(j);
    } else {
      var rest := XorBits(n - 1, a / 2, b / 2);
      Parity(a, b, rest);
      if j > 0 { XorBitsAt(n - 1, a / 2, b / 2, j - 1); }
    }
  }

  lemma {:induction false} NoBits(j: nat)
    ensures Bit(0, j) == 0
  {
    if j > 0 { NoBits(j - 1); }
  }

  /** Exclusive or, bit by bit; so a byte cancels itself and zero changes nothing. */
  lemma XorByteBits(a: Byte, b: Byte, j: nat)
    ensures Bit(XorByte(a, b) as int, j) == (Bit(a as int, j) + Bit(b as int, j)) % 2
    ensures XorByte(a, 0) == a && XorByte(a, a) == 0
  {
    EightBits();
    XorBitsAt(8, a as int, b as int, j);
    XorWithZero(8, a as int);
    XorWithItself(8, a as int);
  }

  lemma {:induction false} XorWithZero(n: nat, a: nat)
    requires a < Pow2(n)
    ensures XorBits(n, a, 0) == a
  {
    if n > 0 { XorWithZero(n - 1, a / 2); }
  }

  lemma {:induction false} XorWithItself(n: nat, a: nat)
    requires a < Pow2(n)
    ensures XorBits(n, a, a) == 0
  {
    if n > 0 { XorWithItself(n - 1, a / 2); }
  }

  function XorByte(a: Byte, b: Byte): Byte {
    EightBits();
    XorBits(8, a as int, b as int) as Byte
  }

  function Xor(a: Bytes, b: Bytes): (r: Bytes)
    requires |a| == |b|
    ensures |r| == |a| && forall i :: 0 <= i < |r| ==> r[i] == XorByte(a[i], b[i])
  {
    seq(|a|, i requires 0 <= i < |a| => XorByte(a[i], b[i]))
  }

  lemma XorTwice(a: Bytes, b: Bytes)
    requires |a| == |b|
    ensures Xor(Xor(a, b), b) == a
  {
    hide XorByte;
    forall i | 0 <= i < |a| ensures Xor(Xor(a, b), b)[i] == a[i] {
      XorByteTwice(a[i], b[i]);
    }
  }

  lemma XorByteTwice(a: Byte, b: Byte)
    ensures XorByte(XorByte(a, b), b) == a
  {
    EightBits();
    XorBitsTwice(8, a as int, b as int);
  }

  // ---------- Block by block ----------

  /** CBC in either direction, and every block on its own in either direction. */
  datatype Mode = CbcEncrypt(iv: Bytes) | CbcDecrypt(iv: Bytes) | EachEncrypt | EachDecrypt {
    predicate Valid() { CbcEncrypt? || CbcDecrypt? ==> |iv| == BLOCK }

    function Inverse(): Mode {
      match this
      case CbcEncrypt(iv) => CbcDecrypt(iv)
      case CbcDecrypt(iv) => CbcEncrypt(iv)
      case EachEncrypt => EachDecrypt
      case EachDecrypt => EachEncrypt
    }
  }

  function BlockAt(src: Bytes, i: nat): (r: Bytes)
    requires (i + 1) * BLOCK <= |src|
    ensures |r| == BLOCK
  {
    src[i * BLOCK..(i + 1) * BLOCK]
  }

  /** Block i of the result.  In CBC, C(i) = Enc(P(i) xor C(i-1)) and P(i) = Dec(C(i)) xor C(i-1),
      with the initialization vector before the first block. */
  function OutBlock(c: Cipher, key: Bytes, mode: Mode, src: Bytes, i: nat): (r: Bytes)
    requires Permutes(c) && mode.Valid() && (i + 1) * BLOCK <= |src|
    ensures |r| == BLOCK
  {
    var block := BlockAt(src, i);
    match mode
    case CbcEncrypt(iv) => Enc(c, key, Xor(block, if i == 0 then iv else OutBlock(c, key, mode, src, i - 1)))
    case CbcDecrypt(iv) => Xor(Dec(c, key, block), if i == 0 then iv else BlockAt(src, i - 1))
    case EachEncrypt => Enc(c, key, block)
    case EachDecrypt => Dec(c, key, block)
  }

  /** The first i blocks of the result. */
  function Upto(c: Cipher, key: Bytes, mode: Mode, src: Bytes, i: nat): (r: Bytes)
    requires Permutes(c) && mode.Valid() && i * BLOCK <= |src|
    ensures |r| == i * BLOCK
  {
    if i == 0 then [] else Upto(c, key, mode, src, i - 1) + OutBlock(c, key, mode, src, i - 1)
  }

  /** The whole blocks of src under the mode. */
  function Through(c: Cipher, key: Bytes, mode: Mode, src: Bytes): (r: Bytes)
    requires Permutes(c) && mode.Valid()
    ensures |r| == |src| / BLOCK * BLOCK
  {
    Upto(c, key, mode, src, |src| / BLOCK)
  }

  function Encrypt(c: Cipher, key: Bytes, iv: Bytes, p: Bytes): (r: Bytes)
    requires Permutes(c) && |iv| == BLOCK && |p| % BLOCK == 0
    ensures |r| == |p|
  {
    Through(c, key, CbcEncrypt(iv), p)
  }

  function Decrypt(c: Cipher, key: Bytes, iv: Bytes, e: Bytes): (r: Bytes)
    requires Permutes(c) && |iv| == BLOCK && |e| % BLOCK == 0
    ensures |r| == |e|
  {
    Through(c, key, CbcDecrypt(iv), e)
  }

  lemma BlockOfAppended(a: Bytes, b: Bytes, n: nat, i: nat)
    requires |a| == n * BLOCK && |b| == BLOCK && i <= n
    ensures BlockAt(a + b, i) == if i < n then BlockAt(a, i) else b
  {
    if i < n {
      assert (i + 1) * BLOCK <= |a|;
    }
  }

  lemma {:induction false} UptoBlock(c: Cipher, key: Bytes, mode: Mode, src: Bytes, n: nat, i: nat)
    requires Permutes(c) && mode.Valid() && i < n && n * BLOCK <= |src|
    ensures BlockAt(Upto(c, key, mode, src, n), i) == OutBlock(c, key, mode, src, i)
  {
    hide Permutes, OutBlock, BlockAt;
    BlockOfAppended(Upto(c, key, mode, src, n - 1), OutBlock(c, key, mode, src, n - 1), n - 1, i);
    if i < n - 1 { UptoBlock(c, key, mode, src, n - 1, i); }
  }

  /** Each block of the inverse mode's result is the block that went in. */
  lemma {:induction false} BlockComesBack(c: Cipher, key: Bytes, mode: Mode, p: Bytes, n: nat, i: nat)
    requires Permutes(c) && mode.Valid() && i < n && n * BLOCK <= |p|
    ensures OutBlock(c, key, mode.Inverse(), Upto(c, key, mode, p, n), i) == BlockAt(p, i)
  {
    hide Permutes, Enc, Dec, Xor, BlockAt, Upto;
    UptoBlock(c, key, mode, p, n, i);
    if i > 0 { UptoBlock(c, key, mode, p, n, i - 1); }
    var block := BlockAt(p, i);
    match mode
    case CbcEncrypt(iv) =>
      var previous := if i == 0 then iv else OutBlock(c, key, mode, p, i - 1);
      BlockInverse(c, key, Xor(block, previous));
      XorTwice(block, previous);
    case CbcDecrypt(iv) =>
      if i > 0 { BlockComesBack(c, key, mode, p, n, i - 1); }
      XorTwice(Dec(c, key, block), if i == 0 then iv else BlockAt(p, i - 1));
      BlockInverse(c, key, block);
    case EachEncrypt => BlockInverse(c, key, block);
    case EachDecrypt => BlockInverse(c, key, block);
  }

  lemma UptoStep(c: Cipher, key: Bytes, mode: Mode, src: Bytes, m: nat)
    requires Permutes(c) && mode.Valid() && (m + 1) * BLOCK <= |src|
    ensures Upto(c, key, mode, src, m + 1) == Upto(c, key, mode, src, m) + OutBlock(c, key, mode, src, m)
  {
  }

  lemma UptoZero(c: Cipher, key: Bytes, mode: Mode, src: Bytes)
    requires Permutes(c) && mode.Valid()
    ensures Upto(c, key, mode, src, 0) == []
  {
  }

  lemma PrefixStep(p: Bytes, m: nat)
    requires (m + 1) * BLOCK <= |p|
    ensures p[..(m + 1) * BLOCK] == p[..m * BLOCK] + BlockAt(p, m)
  {
  }

  lemma {:induction false} BlocksComeBack(c: Cipher, key: Bytes, mode: Mode, p: Bytes, n: nat, m: nat)
    requires Permutes(c) && mode.Valid() && m <= n && n * BLOCK <= |p|
    ensures Upto(c, key, mode.Inverse(), Upto(c, key, mode, p, n), m) == p[..m * BLOCK]
  {
    hide Permutes, OutBlock, Upto, BlockAt;
    var e := Upto(c, key, mode, p, n);
    if m == 0 {
      UptoZero(c, key, mode.Inverse(), e);
    } else {
      BlocksComeBack(c, key, mode, p, n, m - 1);
      BlockComesBack(c, key, mode, p, n, m - 1);
      UptoStep(c, key, mode.Inverse(), e, m - 1);
      PrefixStep(p, m - 1);
    }
  }

  /** Every mode undoes its inverse, for every key, vector and message of whole blocks. */
  lemma ThroughUndoes(c: Cipher, key: Bytes, mode: Mode, p: Bytes)
    requires Permutes(c) && mode.Valid() && |p| % BLOCK == 0
    ensures Through(c, key, mode.Inverse(), Through(c, key, mode, p)) == p
  {
    hide Permutes, Upto;
    var n := |p| / BLOCK;
    BlocksComeBack(c, key, mode, p, n, n);
    assert p[..n * BLOCK] == p;
  }

  // ---------- The modes on what goes in and comes out ----------

  /** CBC encryption: every block is enciphered after it is joined with the ciphertext block before it,
      the first with the vector. */
  lemma EncryptChains(c: Cipher, key: Bytes, iv: Bytes, p: Bytes, i: nat)
    requires Permutes(c) && |iv| == BLOCK && |p| % BLOCK == 0 && (i + 1) * BLOCK <= |p|
    ensures
      var e := Encrypt(c, key, iv, p);
      e[16 * i..16 * i + 16] ==
        c.enc(key, Xor(p[16 * i..16 * i + 16], if i == 0 then iv else e[16 * i - 16..16 * i]))
  {
    hide Permutes, Upto;
    UptoBlock(c, key, CbcEncrypt(iv), p, |p| / BLOCK, i);
    if i > 0 { UptoBlock(c, key, CbcEncrypt(iv), p, |p| / BLOCK, i - 1); }
  }

  /** CBC decryption: every block is deciphered and then joined with the ciphertext block before it. */
  lemma DecryptChains(c: Cipher, key: Bytes, iv: Bytes, e: Bytes, i: nat)
    requires Permutes(c) && |iv| == BLOCK && |e| % BLOCK == 0 && (i + 1) * BLOCK <= |e|
    ensures
      Decrypt(c, key, iv, e)[16 * i..16 * i + 16] ==
        Xor(Dec(c, key, e[16 * i..16 * i + 16]), if i == 0 then iv else e[16 * i - 16..16 * i])
    ensures Dec(c, key, e[16 * i..16 * i + 16]) == c.dec(key, e[16 * i..16 * i + 16])
  {
    hide Permutes, Upto;
    UptoBlock(c, key, CbcDecrypt(iv), e, |e| / BLOCK, i);
  }

  /** In the other modes every block goes through the cipher on its own. */
  lemma EachAlone(c: Cipher, key: Bytes, src: Bytes, i: nat)
    requires Permutes(c) && (i + 1) * BLOCK <= |src|
    ensures Through(c, key, EachEncrypt, src)[16 * i..16 * i + 16] == c.enc(key, src[16 * i..16 * i + 16])
    ensures Through(c, key, EachDecrypt, src)[16 * i..16 * i + 16] == c.dec(key, src[16 * i..16 * i + 16])
  {
    hide Permutes, Upto;
    UptoBlock(c, key, EachEncrypt, src, |src| / BLOCK, i);
    UptoBlock(c, key, EachDecrypt, src, |src| / BLOCK, i);
  }

  // ---------- The block loops ----------

  method Put(dst: array<Byte>, at: nat, block: Bytes)
    requires at + |block| <= dst.Length
    modifies dst
    ensures forall j :: 0 <= j < dst.Length ==> dst[j] == if at <= j < at + |block| then block[j - at] else old(dst[j])
  {
    forall i | 0 <= i < |block| { dst[at + i] := block[i]; }
  }

  /** Does the buffer begin with these bytes? */
  predicate Begins(dst: array<Byte>, a: Bytes)
    reads dst
  {
    |a| <= dst.Length && forall j :: 0 <= j < |a| ==> dst[j] == a[j]
  }

  /** CryptBlocks of a CBC encrypter. */
  method EncryptBlocks(c: Cipher, key: Bytes, iv: Bytes, src: Bytes) returns (dst: array<Byte>)
    requires Permutes(c) && |iv| == BLOCK && |src| % BLOCK == 0
    ensures fresh(dst) && dst[..] == Encrypt(c, key, iv, src)
  {
    hide Permutes, Enc, Xor, BlockAt;
    dst := new Byte[|src|];
    var previous := iv;
    for i := 0 to |src| / BLOCK
      invariant fresh(dst) && dst.Length == |src|
      invariant Begins(dst, Upto(c, key, CbcEncrypt(iv), src, i))
      invariant previous == if i == 0 then iv else OutBlock(c, key, CbcEncrypt(iv), src, i - 1)
    {
      var block := Enc(c, key, Xor(BlockAt(src, i), previous));
      Put(dst, i * BLOCK, block);
      previous := block;
    }
  }

  /** CryptBlocks of a CBC decrypter. */
  method DecryptBlocks(c: Cipher, key: Bytes, iv: Bytes, src: Bytes) returns (dst: array<Byte>)
    requires Permutes(c) && |iv| == BLOCK && |src| % BLOCK == 0
    ensures fresh(dst) && dst[..] == Decrypt(c, key, iv, src)
  {
    hide Permutes, Dec, Xor, BlockAt;
    dst := new Byte[|src|];
    var previous := iv;
    for i := 0 to |src| / BLOCK
      invariant fresh(dst) && dst.Length == |src|
      invariant Begins(dst, Upto(c, key, CbcDecrypt(iv), src, i))
      invariant previous == if i == 0 then iv else BlockAt(src, i - 1)
    {
      var block := Xor(Dec(c, key, BlockAt(src, i)), previous);
      Put(dst, i * BLOCK, block);
      previous := BlockAt(src, i);
    }
  }

  // ---------- Padding ----------

  function PadLength(n: nat): (k: nat)
    ensures 1 <= k <= BLOCK && (n + k) % BLOCK == 0
  {
    BLOCK - n % BLOCK
  }

  /** 1 to 16 bytes, each holding their number. */
  function Pad(data: Bytes): (r: Bytes)
    ensures |r| == |data| + PadLength(|data|) && |r| % BLOCK == 0 && r[..|data|] == data
    ensures forall i :: |data| <= i < |r| ==> r[i] as int == |r| - |data|
  {
    data + seq(PadLength(|data|), _ => PadLength(|data|) as Byte)
  }

  /** What RFC 5652 lets one remove: the last byte says how many, and they all agree. */
  function StrictUnpad(x: Bytes): Option<Bytes> {
    if x == [] || |x| % BLOCK != 0 then None
    else
      var k := x[|x| - 1] as int;
      if k == 0 || k > BLOCK || exists i :: |x| - k <= i < |x| && x[i] as int != k then None
      else Some(x[..|x| - k])
  }

  /** What the Go code removes: it only looks at the last byte, and takes 0 for no padding. */
  function LenientUnpad(x: Bytes): Option<Bytes>
    requires x != []
  {
    var k := x[|x| - 1] as int;
    if k > BLOCK || k > |x| then None else Some(x[..|x| - k])
  }

  /** Strict unpadding inverts padding and accepts nothing else. */
  lemma StrictUnpadInvertsPad(x: Bytes, d: Bytes)
    ensures StrictUnpad(x) == Some(d) <==> x == Pad(d)
  {
    if StrictUnpad(x) == Some(d) {
      var k := x[|x| - 1] as int;
      assert k == PadLength(|d|);
      forall i | 0 <= i < |x| ensures x[i] == Pad(d)[i] {
        if i >= |d| { assert x[i] as int == k; }
      }
      assert x == Pad(d);
    }
    if x == Pad(d) {
      assert x[|x| - 1] == PadLength(|d|) as Byte;
      assert x[..|d|] == d;
    }
  }

  /** Wherever strict unpadding succeeds the lenient one agrees; on whole blocks the lenient one
      accepts more exactly when the last byte is at most 16 and is 0 or miscounts its padding. */
  lemma LenientExtendsStrict(x: Bytes)
    requires x != [] && |x| % BLOCK == 0
    ensures StrictUnpad(x).Some? ==> LenientUnpad(x) == StrictUnpad(x)
    ensures LenientUnpad(x).Some? && StrictUnpad(x).None? <==>
      var k := x[|x| - 1] as int;
      k <= BLOCK && (k == 0 || exists i :: |x| - k <= i < |x| && x[i] != x[|x| - 1])
  {
    var k := x[|x| - 1] as int;
    assert forall i :: 0 <= i < |x| ==> (x[i] as int == k <==> x[i] == x[|x| - 1]);
  }
}
