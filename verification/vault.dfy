/**
 * The encrypted template vault: a file holds `salt ‖ nonce ‖ ct`, where the
 * salt (16 bytes) feeds PBKDF2-HMAC-SHA256 to derive a 32-byte AES-GCM key
 * and the nonce (12 bytes) and ciphertext feed AES-GCM. The key
 * derivation and the cipher are opaque functions supplied in a `Crypto`
 * record; `Sound` states the one property of them the round trip needs.
 */
module Vault {
  import opened Wrappers
  import opened Driver

  newtype byte = b: int | 0 <= b < 256

  type Bytes = seq<byte>

  const SaltLen: nat := 16
  const NonceLen: nat := 12
  /** Offset of the ciphertext in a vault file. */
  const HeaderLen: nat := SaltLen + NonceLen
  const KeyLen: nat := 32
  /** The PBKDF2 iteration count, the default of `Encrypt.__init__`. */
  const Iterations: nat := 390000

  function Zeros(n: nat): (z: Bytes)
    ensures |z| == n
  {
    seq(n, _ => 0)
  }

  type Salt = s: Bytes | |s| == SaltLen witness Zeros(SaltLen)
  type Nonce = n: Bytes | |n| == NonceLen witness Zeros(NonceLen)
  type Key = k: Bytes | |k| == KeyLen witness Zeros(KeyLen)

  /**
   * The cryptographic primitives. `derive(password, salt, iterations)` is
   * PBKDF2-HMAC-SHA256 with a 32-byte output; `seal(key, nonce, data, aad)`
   * and `open(key, nonce, ct, aad)` are AES-GCM encryption and decryption,
   * the latter failing with the library's exception.
   */
  datatype Crypto = Crypto(
    derive: (string, Bytes, nat) -> Key,
    seal: (Key, Bytes, Bytes, Option<Bytes>) -> Bytes,
    open: (Key, Bytes, Bytes, Option<Bytes>) -> Result<Bytes, Exc>)

  /** AEAD correctness: opening what was sealed under the same key, nonce and associated data gives the plaintext back. */
  ghost predicate Sound(c: Crypto) {
    forall k: Key, n: Bytes, m: Bytes, a: Option<Bytes> :: c.open(k, n, c.seal(k, n, m, a), a) == Ok(m)
  }

  /** `_derive_key(password, salt)`. */
  function DeriveKey(c: Crypto, password: string, salt: Bytes): Key {
    c.derive(password, salt, Iterations)
  }

  /** Every element of `xs` is a byte value. */
  predicate ByteValues(xs: seq<int>) {
    forall i :: 0 <= i < |xs| ==> 0 <= xs[i] < 256
  }

  /** `list(b)`: bytes read back as a list of ints. */
  function ToInts(b: Bytes): (xs: seq<int>)
    ensures |xs| == |b| && ByteValues(xs)
    ensures forall i :: 0 <= i < |b| ==> xs[i] == b[i] as int
  {
    seq(|b|, i requires 0 <= i < |b| => b[i] as int)
  }

  /** `bytes(xs)` for a list of byte values. */
  function FromInts(xs: seq<int>): (b: Bytes)
    requires ByteValues(xs)
    ensures |b| == |xs| && forall i :: 0 <= i < |xs| ==> b[i] as int == xs[i]
  {
    seq(|xs|, i requires 0 <= i < |xs| => xs[i] as byte)
  }

  /** Reading bytes as ints and converting back is the identity, both ways round. */
  lemma IntsRoundTrip(b: Bytes, xs: seq<int>)
    ensures FromInts(ToInts(b)) == b
    ensures ByteValues(xs) ==> ToInts(FromInts(xs)) == xs
  {
    var b' := FromInts(ToInts(b));
    assert forall i :: 0 <= i < |b| ==> b'[i] as int == b[i] as int;
  }

  /** What `_encrypt` is handed: a `bytes` object or a list of ints. */
  datatype Plaintext = Raw(bytes: Bytes) | Listed(ints: seq<int>)

  /** `if not isinstance(data, bytes): data = bytes(data)`; `bytes()` rejects values outside 0..255. */
  function Coerce(p: Plaintext): (res: Result<Bytes, Exc>)
    ensures res.Ok? <==> (p.Listed? ==> ByteValues(p.ints))
    ensures res.Err? ==> res.error == ValueError
    ensures p.Raw? ==> res == Ok(p.bytes)
    ensures p.Listed? && res.Ok? ==> ToInts(res.value) == p.ints
  {
    match p
    case Raw(b) => Ok(b)
    case Listed(xs) =>
      if ByteValues(xs) then IntsRoundTrip([], xs); Ok(FromInts(xs)) else Err(ValueError)
  }

  /** The triple `_encrypt` returns. */
  datatype Sealed = Sealed(ct: Bytes, nonce: Nonce, salt: Salt)

  /**
   * `_encrypt(data, password)`: the fresh salt and nonce `os.urandom`
   * draws are parameters; no associated data is bound.
   */
  function Encrypt(c: Crypto, data: Plaintext, password: string, salt: Salt, nonce: Nonce): (res: Result<Sealed, Exc>)
    ensures res.Ok? <==> Coerce(data).Ok?
    ensures res.Err? ==> res.error == ValueError
    ensures res.Ok? ==> res.value.salt == salt && res.value.nonce == nonce
    ensures res.Ok? && Sound(c) ==>
      c.open(DeriveKey(c, password, salt), nonce, res.value.ct, None) == Ok(Coerce(data).value)
  {
    match Coerce(data)
    case Err(e) => Err(e)
    case Ok(b) => Ok(Sealed(c.seal(DeriveKey(c, password, salt), nonce, b, None), nonce, salt))
  }

  /** The file image `salt + nonce + ct`. */
  function Frame(s: Sealed): (raw: Bytes)
    ensures |raw| == HeaderLen + |s.ct|
    ensures raw[..SaltLen] == s.salt && raw[SaltLen..HeaderLen] == s.nonce && raw[HeaderLen..] == s.ct
  {
    s.salt + s.nonce + s.ct
  }

  /** Python's `raw[lo:hi]` for non-negative bounds: both are clamped to the length. */
  function Slice(raw: Bytes, lo: nat, hi: nat): (part: Bytes)
    ensures lo <= hi <= |raw| ==> part == raw[lo..hi]
    ensures lo <= |raw| <= hi ==> part == raw[lo..]
    ensures |raw| <= lo ==> part == []
  {
    var l := if lo < |raw| then lo else |raw|;
    var h := if hi < |raw| then hi else |raw|;
    if l <= h then raw[l..h] else []
  }

  /**
   * `raw[:16], raw[16:28], raw[28:]`. Slicing never fails: the three parts
   * always concatenate back to the file, and a file shorter than 28 bytes
   * yields a short salt or nonce and an empty ciphertext.
   */
  function Split(raw: Bytes): (parts: (Bytes, Bytes, Bytes))
    ensures parts.0 + parts.1 + parts.2 == raw
    ensures |raw| >= HeaderLen <==> |parts.0| == SaltLen && |parts.1| == NonceLen
    ensures |raw| < HeaderLen ==> parts.2 == [] && |parts.0| + |parts.1| == |raw|
  {
    var salt := Slice(raw, 0, SaltLen);
    var nonce := Slice(raw, SaltLen, HeaderLen);
    var ct := Slice(raw, HeaderLen, |raw| + HeaderLen);
    SlicesCover(raw);
    (salt, nonce, ct)
  }

  /** The three clamped slices of `Split` tile the file. */
  lemma SlicesCover(raw: Bytes)
    ensures Slice(raw, 0, SaltLen) + Slice(raw, SaltLen, HeaderLen) + Slice(raw, HeaderLen, |raw| + HeaderLen) == raw
  {
    if |raw| < SaltLen {
      assert Slice(raw, 0, SaltLen) == raw;
    } else if |raw| < HeaderLen {
      assert raw == raw[..SaltLen] + raw[SaltLen..];
    } else {
      assert raw == raw[..SaltLen] + raw[SaltLen..HeaderLen] + raw[HeaderLen..];
    }
  }

  /** Splitting a framed file recovers the salt, the nonce and the ciphertext. */
  lemma SplitFrame(s: Sealed)
    ensures Split(Frame(s)) == (s.salt, s.nonce, s.ct)
  {
    var raw := Frame(s);
    assert raw[..SaltLen] == s.salt && raw[SaltLen..HeaderLen] == s.nonce && raw[HeaderLen..] == s.ct;
  }

  /** Conversely every file of at least 28 bytes is the frame of its own split. */
  lemma FrameSplit(raw: Bytes)
    requires |raw| >= HeaderLen
    ensures var (salt, nonce, ct) := Split(raw); Frame(Sealed(ct, nonce, salt)) == raw
  {
  }

  type Files = map<string, Bytes>

  /** `encrypt_to_file(filepath, data, password)`: write the frame at `path`, replacing any old file; returns True. */
  function EncryptToFile(c: Crypto, files: Files, path: string, data: Plaintext, password: string, salt: Salt, nonce: Nonce)
    : (res: Result<(bool, Files), Exc>)
    ensures res.Ok? <==> Coerce(data).Ok?
    ensures res.Ok? ==>
      && res.value.0
      && res.value.1.Keys == files.Keys + {path}
      && (forall p :: p in files && p != path ==> res.value.1[p] == files[p])
      && |res.value.1[path]| == HeaderLen + |Encrypt(c, data, password, salt, nonce).value.ct|
    ensures res.Ok? ==>
      var raw := res.value.1[path];
      && raw[..SaltLen] == salt
      && raw[SaltLen..HeaderLen] == nonce
      && raw[HeaderLen..] == Encrypt(c, data, password, salt, nonce).value.ct
  {
    match Encrypt(c, data, password, salt, nonce)
    case Err(e) => Err(e)
    case Ok(sealed) => Ok((true, files[path := Frame(sealed)]))
  }

  /** `_decrypt(ct, nonce, salt, password)`: the plaintext as a list of ints. */
  function Decrypt(c: Crypto, ct: Bytes, nonce: Bytes, salt: Bytes, password: string): (res: Result<seq<int>, Exc>)
    ensures res.Ok? ==> ByteValues(res.value)
    ensures res.Ok? <==> c.open(DeriveKey(c, password, salt), nonce, ct, None).Ok?
    ensures res.Ok? ==> var plain := c.open(DeriveKey(c, password, salt), nonce, ct, None).value;
      |res.value| == |plain| && forall i :: 0 <= i < |plain| ==> res.value[i] == plain[i] as int
  {
    match c.open(DeriveKey(c, password, salt), nonce, ct, None)
    case Err(e) => Err(e)
    case Ok(p) => Ok(ToInts(p))
  }

  /** `decrypt_from_file(filepath, password)`. */
  function DecryptFromFile(c: Crypto, files: Files, path: string, password: string): (res: Result<seq<int>, Exc>)
    ensures path !in files ==> res == Err(FileNotFound)
    ensures res.Ok? ==> ByteValues(res.value)
  {
    if path !in files then Err(FileNotFound)
    else
      var (salt, nonce, ct) := Split(files[path]);
      Decrypt(c, ct, nonce, salt, password)
  }

  /**
   * Reading an existing file fails only inside the cipher: the error, if
   * any, is the one AES-GCM raises on the split parts with no associated
   * data, whatever the file's length.
   */
  lemma DecryptFailsOnlyInCipher(c: Crypto, files: Files, path: string, password: string)
    requires path in files
    ensures var (salt, nonce, ct) := Split(files[path]);
      var res := DecryptFromFile(c, files, path, password);
      var plain := c.open(DeriveKey(c, password, salt), nonce, ct, None);
      && (res.Err? <==> plain.Err?)
      && (res.Err? ==> res.error == plain.error)
      && (res.Ok? ==> res.value == ToInts(plain.value))
  {
  }

  /**
   * The vault round trip: with sound primitives, reading a file written by
   * `encrypt_to_file` with the same password returns the plaintext bytes
   * as a list of ints, which for a list of ints is the list itself.
   */
  lemma VaultRoundTrip(c: Crypto, files: Files, path: string, data: Plaintext, password: string, salt: Salt, nonce: Nonce)
    requires Sound(c)
    requires EncryptToFile(c, files, path, data, password, salt, nonce).Ok?
    ensures var files' := EncryptToFile(c, files, path, data, password, salt, nonce).value.1;
      && DecryptFromFile(c, files', path, password) == Ok(ToInts(Coerce(data).value))
      && (data.Listed? ==> DecryptFromFile(c, files', path, password) == Ok(data.ints))
  {
    var sealed := Encrypt(c, data, password, salt, nonce).value;
    SplitFrame(sealed);
  }
}
