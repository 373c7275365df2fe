/**
  The encrypted-file container `iv (16) | SHA-512 (64) | AES-CBC` as Go and TypeScript write it
  and Go, TypeScript and Rust read it.  Slices out of range and misaligned block operations are
  panics, not errors.
 */
module Container {
  import opened Wrappers
  import opened Cbc

  const IV_SIZE := 16
  const HASH_SIZE := 64
  const HEADER := IV_SIZE + HASH_SIZE

  datatype Outcome<T> = Done(value: T) | Refused | Panics

  /** SHA-512 as an arbitrary function. */
  ghost predicate HashFunction(sha: Bytes -> Bytes, size: nat) {
    forall d :: |sha(d)| == size
  }

  predicate AesKey(key: Bytes) { |key| == 16 || |key| == 24 || |key| == 32 }

  function Sealed(c: Cipher, sha: Bytes -> Bytes, data: Bytes, key: Bytes, iv: Bytes): Bytes
    requires Permutes(c) && |iv| == IV_SIZE
  {
    iv + sha(data) + Encrypt(c, key, iv, Pad(data))
  }

  /** Is the file the container of d, under the vector it begins with? */
  ghost predicate IsSealed(c: Cipher, sha: Bytes -> Bytes, file: Bytes, key: Bytes, d: Bytes)
    requires Permutes(c)
  {
    |file| >= HEADER && file == Sealed(c, sha, d, key, file[..IV_SIZE])
  }

  // ---------- autoseller/pkg/aes256cbc/aes256cbc.go ----------

  method EncryptAES256CBCPadded(c: Cipher, data: Bytes, key: Bytes, iv: Bytes) returns (r: Outcome<Bytes>)
    requires Permutes(c)
    ensures r == if !AesKey(key) then Refused
                 else if |iv| != IV_SIZE then Panics
                 else Done(Encrypt(c, key, iv, Pad(data)))
  {
    if !AesKey(key) { return Refused; }
    var paddingLen := BLOCK - |data| % BLOCK;
    var padding := new Byte[paddingLen];
    for i := 0 to paddingLen
      invariant forall j :: 0 <= j < i ==> padding[j] == paddingLen as Byte
    {
      padding[i] := paddingLen as Byte;
    }
    var paddedData := data + padding[..];
    assert paddedData == Pad(data);
    if |iv| != IV_SIZE { return Panics; }
    var encrypted := EncryptBlocks(c, key, iv, paddedData);
    return Done(encrypted[..]);
  }

  method EncryptFile(c: Cipher, sha: Bytes -> Bytes, fileData: Bytes, key: Bytes, iv: Bytes) returns (r: Outcome<Bytes>)
    requires Permutes(c)
    ensures r == if !AesKey(key) then Refused
                 else if |iv| != IV_SIZE then Panics
                 else Done(Sealed(c, sha, fileData, key, iv))
    ensures r.Refused? <==> |key| !in {16, 24, 32}
  {
    var encrypted := EncryptAES256CBCPadded(c, fileData, key, iv);
    if !encrypted.Done? { return encrypted; }
    return Done(iv + sha(fileData) + encrypted.value);
  }

  /** DecryptAES256CBCPadded on whole blocks, else nothing. */
  function Plain(c: Cipher, data: Bytes, key: Bytes, iv: Bytes): Option<Bytes>
    requires Permutes(c) && |iv| == IV_SIZE
  {
    if data == [] || |data| % BLOCK != 0 then None else Some(Decrypt(c, key, iv, data))
  }

  method DecryptAES256CBCPadded(c: Cipher, data: Bytes, key: Bytes, iv: Bytes) returns (r: Outcome<Bytes>)
    requires Permutes(c) && |iv| == IV_SIZE
    ensures r.Refused? <==>
      !AesKey(key) || (Plain(c, data, key, iv).Some? && LenientUnpad(Plain(c, data, key, iv).value).None?)
    ensures r.Panics? <==> AesKey(key) && Plain(c, data, key, iv).None?
    ensures r.Done? ==> LenientUnpad(Plain(c, data, key, iv).value) == Some(r.value)
  {
    if !AesKey(key) { return Refused; }
    if |data| % BLOCK != 0 { return Panics; }
    var decrypted := DecryptBlocks(c, key, iv, data);
    if decrypted.Length == 0 { return Panics; }
    assert decrypted[..][decrypted.Length - 1] == decrypted[decrypted.Length - 1];
    var padLength := decrypted[decrypted.Length - 1] as int;
    if padLength > BLOCK || padLength > decrypted.Length { return Refused; }
    assert decrypted[..decrypted.Length - padLength] == decrypted[..][..decrypted.Length - padLength];
    return Done(decrypted[..decrypted.Length - padLength]);
  }

  /** What DecryptFile accepts: a whole container whose leniently unpadded plaintext has the
      stored hash. */
  ghost predicate Opens(c: Cipher, sha: Bytes -> Bytes, file: Bytes, key: Bytes, d: Bytes)
    requires Permutes(c)
  {
    && AesKey(key) && |file| >= HEADER
    && var p := Plain(c, file[HEADER..], key, file[..IV_SIZE]);
       p.Some? && LenientUnpad(p.value) == Some(d) && sha(d) == file[IV_SIZE..HEADER]
  }

  method DecryptFile(c: Cipher, sha: Bytes -> Bytes, fileData: Bytes, key: Bytes) returns (r: Outcome<Bytes>)
    requires Permutes(c)
    ensures forall d :: r == Done(d) <==> Opens(c, sha, fileData, key, d)
    ensures |fileData| >= 80 && |key| !in {16, 24, 32} ==> r.Refused?
    ensures r.Panics? <==> |fileData| < HEADER || (AesKey(key) && (|fileData| == HEADER || |fileData| % BLOCK != 0))
  {
    if |fileData| < HEADER { return Panics; }
    var iv := fileData[..IV_SIZE];
    var hash := fileData[IV_SIZE..HEADER];
    var data := fileData[HEADER..];
    var decrypted := DecryptAES256CBCPadded(c, data, key, iv);
    if !decrypted.Done? { return decrypted; }
    if hash != sha(decrypted.value) { return Refused; }
    return decrypted;
  }

  // ---------- backend/src/helpers.rs ----------

  method DecryptAes256Cbc(c: Cipher, data: Bytes, key: Bytes, iv: Bytes) returns (r: Option<Bytes>)
    requires Permutes(c)
    ensures r == if |key| != 32 || |iv| != IV_SIZE || |data| % BLOCK != 0 then None
                 else StrictUnpad(Decrypt(c, key, iv, data))
  {
    if |key| != 32 || |iv| != IV_SIZE { return None; }
    if |data| % BLOCK != 0 { return None; }
    var decrypted := DecryptBlocks(c, key, iv, data);
    return StrictUnpad(decrypted[..]);
  }

  /** Ok(true), Ok(false), Err, or a panic on a file shorter than the header. */
  method VerifyFileIntegrity(c: Cipher, sha: Bytes -> Bytes, file: Bytes, key: Bytes) returns (r: Outcome<bool>)
    requires Permutes(c) && HashFunction(sha, 64)
    ensures r == Done(true) <==> |key| == 32 && exists d :: IsSealed(c, sha, file, key, d)
    ensures r.Panics? <==> |file| < HEADER
  {
    if |file| < HEADER { return Panics; }
    var iv := file[..IV_SIZE];
    var hash := file[IV_SIZE..HEADER];
    var encrypted := file[HEADER..];
    var decrypted := DecryptAes256Cbc(c, encrypted, key, iv);
    forall d ensures AesDecryptNative(c, sha, file, key) == Some(d) <==> AesKey(key) && IsSealed(c, sha, file, key, d) {
      OnlySealedFilesOpen(c, sha, file, key, d);
    }
    if decrypted.None? { return Refused; }
    return Done(sha(decrypted.value) == hash);
  }

  // ---------- packages/crypto/src/lib/aes.ts ----------

  /** The file, or None where the function throws. */
  function AesEncryptNative(c: Cipher, sha: Bytes -> Bytes, data: Bytes, key: Bytes, iv: Bytes): Option<Bytes>
    requires Permutes(c)
  {
    if !AesKey(key) || |iv| != IV_SIZE then None else Some(Sealed(c, sha, data, key, iv))
  }

  /** The plaintext, or None where the function throws. */
  function AesDecryptNative(c: Cipher, sha: Bytes -> Bytes, file: Bytes, key: Bytes): Option<Bytes>
    requires Permutes(c)
  {
    if !AesKey(key) || |file| < HEADER then None
    else
      var p := Plain(c, file[HEADER..], key, file[..IV_SIZE]);
      var d := if p.None? then None else StrictUnpad(p.value);
      if d.None? || sha(d.value) != file[IV_SIZE..HEADER] then None else d
  }

  // ---------- Round trips ----------

  /** The layout of a container, octet by octet: 16 of vector, 64 of hash, and the blocks of the data and
      its padding, each chained to the one before. */
  lemma SealedLayout(c: Cipher, sha: Bytes -> Bytes, d: Bytes, key: Bytes, iv: Bytes, i: nat)
    requires Permutes(c) && HashFunction(sha, 64) && |iv| == 16 && 16 * i + 16 <= |Pad(d)|
    ensures
      var file := Sealed(c, sha, d, key, iv);
      && |file| == 80 + |d| / 16 * 16 + 16 && file[..16] == iv && file[16..80] == sha(d)
      && file[80 + 16 * i..96 + 16 * i] ==
           c.enc(key, Xor(Pad(d)[16 * i..16 * i + 16], if i == 0 then iv else file[64 + 16 * i..80 + 16 * i]))
  {
    hide Permutes, Through, Pad;
    var file, e := Sealed(c, sha, d, key, iv), Encrypt(c, key, iv, Pad(d));
    EncryptChains(c, key, iv, Pad(d), i);
    assert file[80 + 16 * i..96 + 16 * i] == e[16 * i..16 * i + 16];
    if i > 0 { assert file[64 + 16 * i..80 + 16 * i] == e[16 * i - 16..16 * i]; }
  }

  /** Everything ever sealed opens again, to the same bytes, in Go and in TypeScript; what TypeScript
      writes is the container. */
  lemma SealedOpens(c: Cipher, sha: Bytes -> Bytes, d: Bytes, key: Bytes, iv: Bytes)
    requires Permutes(c) && HashFunction(sha, 64) && |iv| == 16 && AesKey(key)
    ensures
      var file := AesEncryptNative(c, sha, d, key, iv);
      file == Some(Sealed(c, sha, d, key, iv)) && IsSealed(c, sha, file.value, key, d)
      && AesDecryptNative(c, sha, file.value, key) == Some(d) && Opens(c, sha, file.value, key, d)
  {
    hide Permutes, Through, Pad, StrictUnpad;
    var file := Sealed(c, sha, d, key, iv);
    assert file[..IV_SIZE] == iv && file[IV_SIZE..HEADER] == sha(d) && file[HEADER..] == Encrypt(c, key, iv, Pad(d));
    ThroughUndoes(c, key, CbcEncrypt(iv), Pad(d));
    StrictUnpadInvertsPad(Pad(d), d);
    LenientExtendsStrict(Pad(d));
  }

  lemma OpenedIsSealed(c: Cipher, sha: Bytes -> Bytes, file: Bytes, key: Bytes, d: Bytes)
    requires Permutes(c) && AesDecryptNative(c, sha, file, key) == Some(d)
    ensures IsSealed(c, sha, file, key, d)
  {
    hide Permutes, Through, Pad, StrictUnpad;
    var iv := file[..IV_SIZE];
    var data := file[HEADER..];
    StrictUnpadInvertsPad(Decrypt(c, key, iv, data), d);
    ThroughUndoes(c, key, CbcDecrypt(iv), data);
    assert file == file[..IV_SIZE] + file[IV_SIZE..HEADER] + file[HEADER..];
  }

  /** The strict readers accept sealed files and nothing else. */
  lemma OnlySealedFilesOpen(c: Cipher, sha: Bytes -> Bytes, file: Bytes, key: Bytes, d: Bytes)
    requires Permutes(c) && HashFunction(sha, 64)
    ensures AesDecryptNative(c, sha, file, key) == Some(d) <==> AesKey(key) && IsSealed(c, sha, file, key, d)
  {
    if AesDecryptNative(c, sha, file, key) == Some(d) { OpenedIsSealed(c, sha, file, key, d); }
    if AesKey(key) && IsSealed(c, sha, file, key, d) { SealedOpens(c, sha, d, key, file[..IV_SIZE]); }
  }

  /** What a strict reader accepts the Go reader opens, to the same bytes. */
  lemma StrictImpliesLenient(c: Cipher, sha: Bytes -> Bytes, file: Bytes, key: Bytes, d: Bytes)
    requires Permutes(c) && HashFunction(sha, 64)
    requires AesDecryptNative(c, sha, file, key) == Some(d)
    ensures Opens(c, sha, file, key, d)
  {
    LenientExtendsStrict(Decrypt(c, key, file[..IV_SIZE], file[HEADER..]));
  }

  /** Is this the bytes of a whole container whose padding is wrong, and which the Go reader opens
      all the same?  The last byte is at most 16 and is 0 or miscounts the padding, and the bytes it
      leaves have the stored hash. */
  ghost predicate MispaddedContainer(c: Cipher, sha: Bytes -> Bytes, file: Bytes, key: Bytes, d: Bytes)
    requires Permutes(c)
  {
    && AesKey(key) && |file| > HEADER && (|file| - HEADER) % BLOCK == 0
    && var x := Decrypt(c, key, file[..IV_SIZE], file[HEADER..]);
       var k := x[|x| - 1] as int;
       && k <= BLOCK && d == x[..|x| - k] && sha(d) == file[IV_SIZE..HEADER]
       && (k == 0 || exists i :: |x| - k <= i < |x| && x[i] != x[|x| - 1])
  }

  /** What the Go reader opens beyond containers. */
  lemma OpensBeyondIff(c: Cipher, sha: Bytes -> Bytes, file: Bytes, key: Bytes, d: Bytes)
    requires Permutes(c) && HashFunction(sha, 64)
    ensures Opens(c, sha, file, key, d) && !IsSealed(c, sha, file, key, d) <==> MispaddedContainer(c, sha, file, key, d)
  {
    hide Permutes, Through, Pad, StrictUnpad, IsSealed;
    OnlySealedFilesOpen(c, sha, file, key, d);
    if AesKey(key) && |file| > HEADER && (|file| - HEADER) % BLOCK == 0 {
      var x := Decrypt(c, key, file[..IV_SIZE], file[HEADER..]);
      LenientExtendsStrict(x);
    }
  }

  /** Data of whole blocks that ends in 0, encrypted without any padding: the Go reader opens it, and
      the strict readers do not. */
  lemma UnpaddedOpens(c: Cipher, sha: Bytes -> Bytes, d: Bytes, key: Bytes, iv: Bytes)
    requires Permutes(c) && HashFunction(sha, 64) && AesKey(key) && |iv| == IV_SIZE
    requires d != [] && |d| % BLOCK == 0 && d[|d| - 1] == 0
    ensures
      var file := iv + sha(d) + Encrypt(c, key, iv, d);
      Opens(c, sha, file, key, d) && AesDecryptNative(c, sha, file, key) == None
  {
    hide Permutes, Through;
    var file := iv + sha(d) + Encrypt(c, key, iv, d);
    assert file[..IV_SIZE] == iv && file[IV_SIZE..HEADER] == sha(d) && file[HEADER..] == Encrypt(c, key, iv, d);
    ThroughUndoes(c, key, CbcEncrypt(iv), d);
    assert d[..|d|] == d;
  }

  /** The whole path: a file sealed in Go passes the Rust check and decrypts in Go to itself. */
  method RoundTrip(c: Cipher, sha: Bytes -> Bytes, data: Bytes, key: Bytes, iv: Bytes)
    returns (verified: Outcome<bool>, plain: Outcome<Bytes>)
    requires Permutes(c) && HashFunction(sha, 64) && |key| == 32 && |iv| == IV_SIZE
    ensures verified == Done(true) && plain == Done(data)
  {
    var file := EncryptFile(c, sha, data, key, iv);
    SealedOpens(c, sha, data, key, iv);
    assert file.value[..IV_SIZE] == iv;
    assert IsSealed(c, sha, file.value, key, data);
    verified := VerifyFileIntegrity(c, sha, file.value, key);
    plain := DecryptFile(c, sha, file.value, key);
  }
}
