/**
  HKDF with SHA-512 as the crypto package computes it, against section 2.3 of RFC 5869.  The
  package counts lengths in bits.
 */
module Hkdf {
  import opened Wrappers
  import opened Cbc

  const HASH_BITS := 512
  const HASH_BYTES := 64

  type Hmac = (Bytes, Bytes) -> Bytes

  ghost predicate IsHmac(hmac: Hmac) {
    forall k, m :: |hmac(k, m)| == 64
  }

  // ---------- RFC 5869 ----------

  /** T(i) of section 2.3; the counter octet exists for i up to 255. */
  function T(hmac: Hmac, prk: Bytes, info: Bytes, i: nat): Bytes
    requires i <= 255
  {
    if i == 0 then [] else hmac(prk, T(hmac, prk, info, i - 1) + info + [i as Byte])
  }

  /** T(1) | ... | T(n). */
  function Blocks(hmac: Hmac, prk: Bytes, info: Bytes, n: nat): (r: Bytes)
    requires IsHmac(hmac) && n <= 255
    ensures |r| == n * HASH_BYTES
  {
    if n == 0 then [] else Blocks(hmac, prk, info, n - 1) + T(hmac, prk, info, n)
  }

  function CeilDiv(a: nat, b: nat): (q: nat)
    requires b > 0
    ensures a <= q * b < a + b
  {
    (a + b - 1) / b
  }

  /** HKDF-Expand for `length` octets. */
  function Expand(hmac: Hmac, prk: Bytes, info: Bytes, length: nat): (r: Bytes)
    requires IsHmac(hmac) && length <= 255 * HASH_BYTES
    ensures |r| == length
  {
    Blocks(hmac, prk, info, CeilDiv(length, HASH_BYTES))[..length]
  }

  lemma {:induction false} BlocksAt(hmac: Hmac, prk: Bytes, info: Bytes, n: nat, i: nat)
    requires IsHmac(hmac) && 0 < i <= n <= 255
    ensures Blocks(hmac, prk, info, n)[64 * i - 64..64 * i] == T(hmac, prk, info, i)
  {
    var before, last := Blocks(hmac, prk, info, n - 1), T(hmac, prk, info, n);
    if i < n {
      BlocksAt(hmac, prk, info, n - 1, i);
      assert (before + last)[64 * i - 64..64 * i] == before[64 * i - 64..64 * i];
    }
  }

  lemma SliceOfTake(a: Bytes, lo: nat, end: nat, hi: nat, length: nat)
    requires lo <= end <= hi <= |a| && end <= length <= |a|
    ensures a[..length][lo..end] == a[lo..hi][..end - lo]
  {
    var x, y := a[..length][lo..end], a[lo..hi][..end - lo];
    assert forall j :: 0 <= j < |x| ==> x[j] == a[lo + j] && y[j] == a[lo + j];
  }

  /** The output is a chain: octets 64i - 64 onwards are the hash of the 64 octets before them, the info
      and the octet i. */
  lemma ExpandChains(hmac: Hmac, prk: Bytes, info: Bytes, length: nat, i: nat)
    requires IsHmac(hmac) && length <= 255 * 64 && 0 < i && 64 * i - 64 < length
    ensures
      var out := Expand(hmac, prk, info, length);
      var end := if 64 * i < length then 64 * i else length;
      var previous := if i == 1 then [] else out[64 * i - 128..64 * i - 64];
      i <= 255 && out[64 * i - 64..end] == hmac(prk, previous + info + [i as Byte])[..end - (64 * i - 64)]
  {
    hide Blocks;
    var n := CeilDiv(length, HASH_BYTES);
    var all := Blocks(hmac, prk, info, n);
    var out := all[..length];
    BlocksAt(hmac, prk, info, n, i);
    if i > 1 {
      BlocksAt(hmac, prk, info, n, i - 1);
      assert out[64 * i - 128..64 * i - 64] == all[64 * i - 128..64 * i - 64];
    }
    var end := if 64 * i < length then 64 * i else length;
    SliceOfTake(all, 64 * i - 64, end, 64 * i, length);
  }

  // ---------- packages/crypto/src/lib/hkdf-sha512.ts ----------

  /** The code's list entry i; Buffer.from([i]) keeps i modulo 256. */
  function Entry(hmac: Hmac, prk: Bytes, info: Bytes, i: nat): Bytes {
    if i == 0 then [] else hmac(prk, Entry(hmac, prk, info, i - 1) + info + [(i % 256) as Byte])
  }

  function Concat(parts: seq<Bytes>): Bytes {
    if parts == [] then [] else Concat(parts[..|parts| - 1]) + parts[|parts| - 1]
  }

  /** subarray(0, end). */
  function Upto(b: Bytes, end: nat): Bytes { if end < |b| then b[..end] else b }

  /** The list entries 1 to n, joined. */
  function Joined(hmac: Hmac, prk: Bytes, info: Bytes, n: nat): Bytes {
    if n == 0 then [] else Joined(hmac, prk, info, n - 1) + Entry(hmac, prk, info, n)
  }

  /** What hkdfExpand returns, None where it throws. */
  function Expanded(hmac: Hmac, prk: Bytes, info: Bytes, bits: nat): Option<Bytes> {
    if bits > 256 * HASH_BITS then None
    else Some(Upto(Joined(hmac, prk, info, CeilDiv(bits, HASH_BITS)), bits))
  }

  lemma {:induction false} ConcatIsJoined(hmac: Hmac, prk: Bytes, info: Bytes, parts: seq<Bytes>)
    requires forall i :: 0 <= i < |parts| ==> parts[i] == Entry(hmac, prk, info, i + 1)
    ensures Concat(parts) == Joined(hmac, prk, info, |parts|)
  {
    hide Entry;
    if parts != [] { ConcatIsJoined(hmac, prk, info, parts[..|parts| - 1]); }
  }

  method HkdfExpand(hmac: Hmac, prk: Bytes, info: Bytes, bits: nat) returns (r: Option<Bytes>)
    ensures r == Expanded(hmac, prk, info, bits)
    ensures r.None? <==> bits > 256 * 512
  {
    hide Joined, Concat;
    var maxL := 256 * HASH_BITS;
    if bits > maxL { return None; }
    var n := CeilDiv(bits, HASH_BITS);
    var list: seq<Bytes> := [[]];
    var i := 1;
    while i <= n
      invariant 1 <= i <= n + 1 && |list| == i
      invariant forall j :: 0 <= j < i ==> list[j] == Entry(hmac, prk, info, j)
    {
      list := list + [hmac(prk, list[i - 1] + info + [(i % 256) as Byte])];
      i := i + 1;
    }
    ConcatIsJoined(hmac, prk, info, list[1..]);
    return Some(Upto(Concat(list[1..]), bits));
  }

  // ---------- Agreement ----------

  lemma {:induction false} EntryIsT(hmac: Hmac, prk: Bytes, info: Bytes, i: nat)
    requires i <= 255
    ensures Entry(hmac, prk, info, i) == T(hmac, prk, info, i)
  {
    if i > 0 { EntryIsT(hmac, prk, info, i - 1); }
  }

  lemma {:induction false} JoinedIsBlocks(hmac: Hmac, prk: Bytes, info: Bytes, n: nat)
    requires IsHmac(hmac) && n <= 255
    ensures Joined(hmac, prk, info, n) == Blocks(hmac, prk, info, n)
  {
    if n > 0 {
      JoinedIsBlocks(hmac, prk, info, n - 1);
      EntryIsT(hmac, prk, info, n);
    }
  }

  lemma ExpandedIsBlocks(hmac: Hmac, prk: Bytes, info: Bytes, bits: nat)
    requires IsHmac(hmac) && bits <= 255 * HASH_BITS
    ensures Expanded(hmac, prk, info, bits) == Some(Upto(Blocks(hmac, prk, info, CeilDiv(bits, HASH_BITS)), bits))
  {
    JoinedIsBlocks(hmac, prk, info, CeilDiv(bits, HASH_BITS));
  }

  /** For whole octets up to 255 * 512 bits the code's output begins with the standard's. */
  lemma AgreesWithStandard(hmac: Hmac, prk: Bytes, info: Bytes, bits: nat)
    requires IsHmac(hmac) && bits % 8 == 0 && bits <= 255 * 512
    ensures
      var r := Expanded(hmac, prk, info, bits);
      r.Some? && bits / 8 <= |r.value| && r.value[..bits / 8] == Expand(hmac, prk, info, bits / 8)
  {
    ExpandedIsBlocks(hmac, prk, info, bits);
    assert CeilDiv(bits, HASH_BITS) == CeilDiv(bits / 8, HASH_BYTES);
  }

  /** It is exactly the standard's output if and only if whole hash blocks were asked for:
      otherwise it is longer, since the cut counts octets where the length counts bits. */
  lemma ExactlyStandardIff(hmac: Hmac, prk: Bytes, info: Bytes, bits: nat)
    requires IsHmac(hmac) && bits % 8 == 0 && bits <= 255 * 512
    ensures Expanded(hmac, prk, info, bits) == Some(Expand(hmac, prk, info, bits / 8)) <==> bits % 512 == 0
  {
    hide Expanded, Expand, Blocks;
    AgreesWithStandard(hmac, prk, info, bits);
    ExpandedIsBlocks(hmac, prk, info, bits);
    var n := CeilDiv(bits, HASH_BITS);
    var out := Upto(Blocks(hmac, prk, info, n), bits);
    OutputLength(bits, n);
    assert |out| == if bits < n * HASH_BYTES then bits else n * HASH_BYTES;
    if |out| == bits / 8 { assert out[..bits / 8] == out; }
  }

  lemma OutputLength(bits: nat, n: nat)
    requires bits % 8 == 0 && n == CeilDiv(bits, HASH_BITS)
    ensures (if bits < n * HASH_BYTES then bits else n * HASH_BYTES) == bits / 8 <==> bits % HASH_BITS == 0
  {
    if bits % HASH_BITS == 0 { assert n * HASH_BITS == bits; }
  }

  /** The 384 bits of an AES key and vector come as a whole block of 64 octets, not as 48. */
  lemma LongerOutput(hmac: Hmac, prk: Bytes, info: Bytes)
    requires IsHmac(hmac)
    ensures Expanded(hmac, prk, info, 384).Some? && |Expanded(hmac, prk, info, 384).value| == 64
    ensures |Expand(hmac, prk, info, 384 / 8)| == 48
  {
    hide Blocks, Joined;
    ExpandedIsBlocks(hmac, prk, info, 384);
    assert CeilDiv(384, HASH_BITS) == 1;
  }

  lemma {:induction false} JoinedLength(hmac: Hmac, prk: Bytes, info: Bytes, n: nat)
    requires IsHmac(hmac)
    ensures |Joined(hmac, prk, info, n)| == n * HASH_BYTES
  {
    if n > 0 { JoinedLength(hmac, prk, info, n - 1); }
  }

  /** What is returned is the joined blocks, cut to as many octets as bits were asked for. */
  lemma OutputIsCut(hmac: Hmac, prk: Bytes, info: Bytes, bits: nat, n: nat)
    requires IsHmac(hmac) && bits <= 256 * 512 && 512 * n - 512 < bits <= 512 * n
    ensures
      var r := Expanded(hmac, prk, info, bits);
      && r.Some? && |r.value| == (if bits < 64 * n then bits else 64 * n)
      && r.value <= Joined(hmac, prk, info, n)
  {
    hide Joined;
    assert CeilDiv(bits, HASH_BITS) == n;
    JoinedLength(hmac, prk, info, n);
  }

  /** 256 blocks are given out where the standard refuses more than 255; the last one is made with the
      counter octet 0. */
  lemma BlockBeyond(hmac: Hmac, prk: Bytes, info: Bytes)
    requires IsHmac(hmac)
    ensures
      var r := Expanded(hmac, prk, info, 256 * 512);
      && r.Some? && |r.value| == 256 * 64 > 255 * 64
      && r.value[255 * 64..] == hmac(prk, Entry(hmac, prk, info, 255) + info + [0])
  {
    var bits := 256 * HASH_BITS;
    assert CeilDiv(bits, HASH_BITS) == 256;
    JoinedLength(hmac, prk, info, 255);
    JoinedLength(hmac, prk, info, 256);
    hide Joined, Entry;
    LastEntry(hmac, prk, info);
  }

  lemma LastEntry(hmac: Hmac, prk: Bytes, info: Bytes)
    ensures Joined(hmac, prk, info, 256) == Joined(hmac, prk, info, 255) + Entry(hmac, prk, info, 256)
    ensures Entry(hmac, prk, info, 256) == hmac(prk, Entry(hmac, prk, info, 255) + info + [0])
  {
    assert [(256 % 256) as Byte] == [0];
  }
}
