/**
  The older file format: zeros on the left up to whole blocks, a SHA-256 trailer, and every
  block encrypted on its own.
 */
module OlderFormat {
  import opened Cbc
  import opened Container

  const TRAILER := 32

  function Zeros(n: nat): (r: Bytes)
    ensures |r| == n
  {
    seq(n, _ => 0)
  }

  /** Fewer zeros than a block, and the contents. */
  function LeftPadded(contents: Bytes): (r: Bytes)
    ensures |r| % BLOCK == 0 && |contents| <= |r| < |contents| + 16 && r[|r| - |contents|..] == contents
    ensures forall i :: 0 <= i < |r| - |contents| ==> r[i] == 0
  {
    Zeros((if |contents| % BLOCK == 0 then 0 else BLOCK) - |contents| % BLOCK) + contents
  }

  /** The loop shared by the encoder and both decoders: whole blocks through the cipher, a rest that is
      not a whole block left at zero. */
  method MapBlocks(c: Cipher, key: Bytes, mode: Mode, src: Bytes) returns (dst: array<Byte>)
    requires Permutes(c) && (mode.EachEncrypt? || mode.EachDecrypt?)
    ensures fresh(dst) && dst[..] == Through(c, key, mode, src) + Zeros(|src| % BLOCK)
  {
    hide Permutes, Enc, Dec, BlockAt;
    dst := new Byte[|src|](_ => 0);
    for i := 0 to |src| / BLOCK
      invariant fresh(dst) && dst.Length == |src|
      invariant Begins(dst, Upto(c, key, mode, src, i))
      invariant forall j :: i * BLOCK <= j < dst.Length ==> dst[j] == 0
    {
      var block := BlockAt(src, i);
      Put(dst, i * BLOCK, if mode.EachEncrypt? then Enc(c, key, block) else Dec(c, key, block));
    }
  }

  function Encoded(c: Cipher, sha: Bytes -> Bytes, contents: Bytes, key: Bytes): Bytes
    requires Permutes(c) && HashFunction(sha, 32)
  {
    var padded := LeftPadded(contents);
    Through(c, key, EachEncrypt, padded + sha(padded))
  }

  /** The encoder of backend/src/bin/pbkdf2-encrypt.rs; a key of another length is a panic. */
  method Encode(c: Cipher, sha: Bytes -> Bytes, contents: Bytes, key: Bytes) returns (r: Outcome<Bytes>)
    requires Permutes(c) && HashFunction(sha, 32)
    ensures r == if |key| != 32 then Panics else Done(Encoded(c, sha, contents, key))
  {
    if |key| != 32 { return Panics; }
    var padded := Zeros((if |contents| % BLOCK == 0 then 0 else BLOCK) - |contents| % BLOCK) + contents;
    padded := padded + sha(padded);
    var encrypted := MapBlocks(c, key, EachEncrypt, padded);
    assert Zeros(0) == [];
    assert encrypted[..] == Encoded(c, sha, contents, key);
    return Done(encrypted[..]);
  }

  /** What a decoder's buffer holds after the block loop. */
  function Decoded(c: Cipher, file: Bytes, key: Bytes): (r: Bytes)
    requires Permutes(c)
    ensures |r| == |file|
  {
    Through(c, key, EachDecrypt, file) + Zeros(|file| % BLOCK)
  }

  predicate TrailerMatches(sha: Bytes -> Bytes, decrypted: Bytes)
    requires |decrypted| >= TRAILER
  {
    sha(decrypted[..|decrypted| - TRAILER]) == decrypted[|decrypted| - TRAILER..]
  }

  /** decrypt_file of backend/src/helpers.rs. */
  method CheckFile(c: Cipher, sha: Bytes -> Bytes, file: Bytes, key: Bytes) returns (r: Outcome<bool>)
    requires Permutes(c)
    ensures r == if |key| != 32 then Refused
                 else if |file| < TRAILER then Panics
                 else Done(TrailerMatches(sha, Decoded(c, file, key)))
  {
    if |key| != 32 { return Refused; }
    var buffer := MapBlocks(c, key, EachDecrypt, file);
    var decrypted := buffer[..];
    if |decrypted| < TRAILER { return Panics; }
    return Done(sha(decrypted[..|decrypted| - TRAILER]) == decrypted[|decrypted| - TRAILER..]);
  }

  /** How many bytes from the left are zero. */
  function LeadingZeros(x: Bytes): (n: nat)
    ensures n <= |x| && (forall i :: 0 <= i < n ==> x[i] == 0) && (n < |x| ==> x[n] != 0)
  {
    if x != [] && x[0] == 0 then 1 + LeadingZeros(x[1..]) else 0
  }

  lemma LeadingZerosUnique(x: Bytes, n: nat)
    requires n <= |x| && (forall i :: 0 <= i < n ==> x[i] == 0) && (n < |x| ==> x[n] != 0)
    ensures n == LeadingZeros(x)
  {
  }

  /** The decoder of backend/src/bin/pbkdf2-decrypt.rs.  It scans for zeros through the trailer as
      well, and slices from there to the trailer. */
  method Decode(c: Cipher, sha: Bytes -> Bytes, contents: Bytes, key: Bytes) returns (r: Outcome<Bytes>)
    requires Permutes(c)
    ensures
      var decrypted := Decoded(c, contents, key);
      var end := |contents| - TRAILER;
      r == if |key| != 32 || |contents| < TRAILER || !TrailerMatches(sha, decrypted) || LeadingZeros(decrypted) > end
           then Panics else Done(decrypted[LeadingZeros(decrypted)..end])
  {
    if |key| != 32 { return Panics; }
    var buffer := MapBlocks(c, key, EachDecrypt, contents);
    var decrypted := buffer[..];
    if |decrypted| < TRAILER { return Panics; }
    if sha(decrypted[..|decrypted| - TRAILER]) != decrypted[|decrypted| - TRAILER..] { return Panics; }
    var ind := 0;
    for idx := 0 to |decrypted|
      invariant ind == idx && forall i :: 0 <= i < ind ==> decrypted[i] == 0
    {
      if decrypted[idx] == 0 { ind := idx + 1; } else { break; }
    }
    LeadingZerosUnique(decrypted, ind);
    if ind > |decrypted| - TRAILER { return Panics; }
    return Done(decrypted[ind..|decrypted| - TRAILER]);
  }

  // ---------- Round trip ----------

  lemma DecodedIsPadded(c: Cipher, sha: Bytes -> Bytes, f: Bytes, key: Bytes)
    requires Permutes(c) && HashFunction(sha, 32)
    ensures Decoded(c, Encoded(c, sha, f, key), key) == LeftPadded(f) + sha(LeftPadded(f))
  {
    hide Permutes, Through, LeftPadded;
    var p := LeftPadded(f) + sha(LeftPadded(f));
    var e := Encoded(c, sha, f, key);
    ThroughUndoes(c, key, EachEncrypt, p);
    assert |e| % BLOCK == 0 && Zeros(0) == [];
  }

  /** The layout of an encoded file: every block of zeros, contents and hash is enciphered on its own. */
  lemma EncodedLayout(c: Cipher, sha: Bytes -> Bytes, f: Bytes, key: Bytes, i: nat)
    requires Permutes(c) && HashFunction(sha, 32) && 16 * i + 16 <= |LeftPadded(f)| + 32
    ensures
      var plain := LeftPadded(f) + sha(LeftPadded(f));
      var e := Encoded(c, sha, f, key);
      |e| == |plain| && e[16 * i..16 * i + 16] == c.enc(key, plain[16 * i..16 * i + 16])
  {
    hide Permutes, Through, LeftPadded;
    EachAlone(c, key, LeftPadded(f) + sha(LeftPadded(f)), i);
  }

  /** The integrity check passes on everything the encoder writes. */
  lemma EncodedPassesCheck(c: Cipher, sha: Bytes -> Bytes, f: Bytes, key: Bytes)
    requires Permutes(c) && HashFunction(sha, 32)
    ensures |Encoded(c, sha, f, key)| >= TRAILER
    ensures TrailerMatches(sha, Decoded(c, Encoded(c, sha, f, key), key))
  {
    DecodedIsPadded(c, sha, f, key);
    var padded := LeftPadded(f);
    assert (padded + sha(padded))[..|padded|] == padded;
  }

  /** What comes out of zeros, contents and hash, cut from the first byte that is not zero. */
  lemma CutIff(f: Bytes, z: nat, hash: Bytes)
    requires f == [] ==> z == 0
    requires |hash| == TRAILER
    ensures
      var x := Zeros(z) + f + hash;
      (LeadingZeros(x) <= z + |f| && x[LeadingZeros(x)..z + |f|] == f) <==>
        (if f == [] then hash[0] != 0 else f[0] != 0)
  {
    var x := Zeros(z) + f + hash;
    assert forall i :: 0 <= i < |f| ==> x[z + i] == f[i];
    if f == [] {
      assert x == hash;
    } else if f[0] != 0 {
      LeadingZerosUnique(x, z);
      assert x[z..z + |f|] == f;
    } else {
      assert forall i :: 0 <= i <= z ==> x[i] == 0;
      assert LeadingZeros(x) > z;
    }
  }

  lemma PaddedIsZeros(f: Bytes)
    ensures LeftPadded(f) == Zeros(|LeftPadded(f)| - |f|) + f
    ensures f == [] ==> |LeftPadded(f)| == 0
  {
    var z := |LeftPadded(f)| - |f|;
    assert LeftPadded(f) == LeftPadded(f)[..z] + f && LeftPadded(f)[..z] == Zeros(z);
  }

  /** The decoder gives the file back exactly when the file begins with a non-zero byte, or is
      empty and its hash does. */
  lemma RoundTripIff(c: Cipher, sha: Bytes -> Bytes, f: Bytes, key: Bytes)
    requires Permutes(c) && HashFunction(sha, 32)
    ensures
      var e := Encoded(c, sha, f, key);
      var decrypted := Decoded(c, e, key);
      var end := |e| - TRAILER;
      (LeadingZeros(decrypted) <= end && decrypted[LeadingZeros(decrypted)..end] == f) <==>
        (if f == [] then sha([])[0] != 0 else f[0] != 0)
  {
    hide Permutes, Through, LeftPadded, LeadingZeros, Zeros;
    DecodedIsPadded(c, sha, f, key);
    PaddedIsZeros(f);
    var padded := LeftPadded(f);
    if f == [] { assert padded == []; }
    CutIff(f, |padded| - |f|, sha(padded));
  }

  /** A leading zero byte does not come back: the decoder writes the rest. */
  lemma LeadingZeroLost(c: Cipher, sha: Bytes -> Bytes, g: Bytes, key: Bytes)
    requires Permutes(c) && HashFunction(sha, 32) && g != [] && g[0] != 0
    ensures
      var e := Encoded(c, sha, [0] + g, key);
      var decrypted := Decoded(c, e, key);
      |e| >= TRAILER && LeadingZeros(decrypted) <= |e| - TRAILER
      && decrypted[LeadingZeros(decrypted)..|e| - TRAILER] == g
  {
    hide Permutes, Through;
    var f := [0] + g;
    DecodedIsPadded(c, sha, f, key);
    var padded := LeftPadded(f);
    var decrypted := padded + sha(padded);
    var z := |padded| - |g|;
    assert forall i :: 0 <= i < |g| ==> decrypted[z + i] == g[i];
    LeadingZerosUnique(decrypted, z);
    assert decrypted[z..|padded|] == g;
  }

  method EncodeThenDecode(c: Cipher, sha: Bytes -> Bytes, f: Bytes, key: Bytes)
    returns (verified: Outcome<bool>, plain: Outcome<Bytes>)
    requires Permutes(c) && HashFunction(sha, 32) && |key| == 32
    ensures verified == Done(true)
    ensures plain == Done(f) <==> if f == [] then sha([])[0] != 0 else f[0] != 0
  {
    var e := Encode(c, sha, f, key);
    EncodedPassesCheck(c, sha, f, key);
    RoundTripIff(c, sha, f, key);
    verified := CheckFile(c, sha, e.value, key);
    plain := Decode(c, sha, e.value, key);
  }
}
