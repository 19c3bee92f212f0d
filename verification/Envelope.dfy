/**
  Envelope encryption of tokens over an abstract cipher and key service. The buffers are real: a
  local key buffer is filled, used and zeroed in place, and what matters is that zeroing it on
  every exit never reaches the envelope that was returned.
 */
module Envelope {
  import opened Wrappers

  newtype byte = b: int | 0 <= b < 256

  type Bytes = seq<byte>

  /** AES-GCM without additional data: key, nonce and text. */
  datatype Cipher = Cipher(seal: (Bytes, Bytes, Bytes) -> Bytes, open: (Bytes, Bytes, Bytes) -> Option<Bytes>)

  /** The key service: wrapping is randomised, and returns memory of its own. */
  datatype KeyService = KeyService(wrap: (Bytes, int) -> Bytes, unwrap: Bytes -> Option<Bytes>)

  datatype Manager = Manager(cipher: Cipher, kms: Option<KeyService>)

  const KEY_SIZE := 32
  const NONCE_SIZE := 12

  /** The thirteen bytes "MOCK_KMS_DEK:". */
  const MOCK_PREFIX: Bytes := [77, 79, 67, 75, 95, 75, 77, 83, 95, 68, 69, 75, 58]

  ghost predicate Lawful(m: Manager) {
    && (forall k, n, p :: m.cipher.open(k, n, m.cipher.seal(k, n, p)) == Some(p))
    && (m.kms.Some? ==> forall k, salt :: m.kms.value.unwrap(m.kms.value.wrap(k, salt)) == Some(k))
  }

  function Wrap(m: Manager, key: Bytes, salt: int): Bytes {
    match m.kms
    case None => MOCK_PREFIX + key
    case Some(kms) => kms.wrap(key, salt)
  }

  function Unwrap(m: Manager, wrapped: Bytes): Option<Bytes> {
    match m.kms
    case None => if |wrapped| > |MOCK_PREFIX| then Some(wrapped[|MOCK_PREFIX|..]) else None
    case Some(kms) => kms.unwrap(wrapped)
  }

  /** A cipher can be made from a key of one of the AES sizes only. */
  predicate IsCipherKey(key: Bytes) {
    |key| == 16 || |key| == 24 || |key| == 32
  }

  /** The token an envelope with these contents opens to. */
  function Opened(m: Manager, ciphertext: Bytes, wrapped: Bytes): Option<Bytes> {
    match Unwrap(m, wrapped)
    case None => None
    case Some(key) =>
      if !IsCipherKey(key) || |ciphertext| < NONCE_SIZE then None
      else m.cipher.open(key, ciphertext[..NONCE_SIZE], ciphertext[NONCE_SIZE..])
  }

  /** Some fresh key and nonce make these the contents of an envelope of the token. */
  ghost predicate Seals(m: Manager, token: Bytes, ciphertext: Bytes, wrapped: Bytes) {
    exists key: Bytes, nonce: Bytes, salt: int ::
      && |key| == KEY_SIZE && |nonce| == NONCE_SIZE
      && ciphertext == nonce + m.cipher.seal(key, nonce, token)
      && wrapped == Wrap(m, key, salt)
  }

  lemma SealedOpens(m: Manager, token: Bytes, ciphertext: Bytes, wrapped: Bytes)
    requires Lawful(m) && Seals(m, token, ciphertext, wrapped)
    ensures Opened(m, ciphertext, wrapped) == Some(token)
  {
    var key: Bytes, nonce: Bytes, salt: int :|
      && |key| == KEY_SIZE && |nonce| == NONCE_SIZE
      && ciphertext == nonce + m.cipher.seal(key, nonce, token)
      && wrapped == Wrap(m, key, salt);
    assert Unwrap(m, wrapped) == Some(key);
    assert ciphertext[..NONCE_SIZE] == nonce && ciphertext[NONCE_SIZE..] == m.cipher.seal(key, nonce, token);
  }

  ghost predicate AllZero(b: array<byte>)
    reads b
  {
    forall i :: 0 <= i < b.Length ==> b[i] == 0
  }

  method ZeroBytes(b: array<byte>)
    modifies b
    ensures AllZero(b)
  {
    for i := 0 to b.Length
      invariant forall j :: 0 <= j < i ==> b[j] == 0
    {
      b[i] := 0;
    }
  }

  method Copy(bytes: Bytes) returns (b: array<byte>)
    ensures fresh(b) && b[..] == bytes
  {
    b := new byte[|bytes|](i requires 0 <= i < |bytes| => bytes[i]);
  }

  /** Both byte strings of an envelope live in arrays of their own. */
  datatype EncryptedEnvelope = EncryptedEnvelope(tokenCiphertext: array<byte>, encryptedDek: array<byte>)

  /**
    Random bytes may fail to arrive, and so may the key service. `dek` shows the local key buffer
    to the specification: once filled, it is zero on every exit, and the envelope does not share it.
   */
  method EncryptToken(m: Manager, token: array<byte>, keyBytes: Option<Bytes>, nonceBytes: Option<Bytes>,
                      salt: int, kmsFails: bool)
    returns (r: Option<EncryptedEnvelope>, ghost dek: array?<byte>)
    requires keyBytes.Some? ==> |keyBytes.value| == 32
    requires nonceBytes.Some? ==> |nonceBytes.value| == 12
    ensures keyBytes.Some? ==> dek != null
    ensures dek != null ==> fresh(dek) && dek.Length == KEY_SIZE && AllZero(dek)
    ensures r.Some? <==> keyBytes.Some? && nonceBytes.Some? && !(m.kms.Some? && kmsFails)
    ensures r.Some? ==>
              && fresh(r.value.tokenCiphertext) && fresh(r.value.encryptedDek)
              && r.value.tokenCiphertext != dek && r.value.encryptedDek != dek
              && r.value.tokenCiphertext[..] == nonceBytes.value +
                  m.cipher.seal(keyBytes.value, nonceBytes.value, token[..])
              && r.value.encryptedDek[..] == Wrap(m, keyBytes.value, salt)
              && (m.kms.None? ==> r.value.encryptedDek[..]
                                  == [77, 79, 67, 75, 95, 75, 77, 83, 95, 68, 69, 75, 58] + keyBytes.value)
              && (m.kms.Some? ==> r.value.encryptedDek[..] == m.kms.value.wrap(keyBytes.value, salt))
              && Seals(m, token[..], r.value.tokenCiphertext[..], r.value.encryptedDek[..])
  {
    if keyBytes.None? {
      return None, null;
    }
    var key := Copy(keyBytes.value);
    dek := key;
    if nonceBytes.None? {
      ZeroBytes(key);
      return None, key;
    }
    var nonce := Copy(nonceBytes.value);
    var ciphertext := Copy(nonce[..] + m.cipher.seal(key[..], nonce[..], token[..]));
    if m.kms.Some? && kmsFails {
      ZeroBytes(key);
      return None, key;
    }
    var encryptedDek := Copy(Wrap(m, key[..], salt));
    ZeroBytes(key);
    return Some(EncryptedEnvelope(ciphertext, encryptedDek)), key;
  }

  /**
    The envelope is only read. On every exit the local key buffer and the key service's plaintext
    copy are zero.
   */
  method DecryptToken(m: Manager, envelope: EncryptedEnvelope, kmsFails: bool)
    returns (r: Option<array<byte>>, ghost dek: array?<byte>, ghost plaintext: array?<byte>)
    ensures dek != null ==> fresh(dek) && AllZero(dek)
    ensures plaintext != null ==> fresh(plaintext) && AllZero(plaintext)
    ensures m.kms.None? ==> (dek != null <==> envelope.encryptedDek.Length > 13)
    ensures dek != null <==> !(m.kms.Some? && kmsFails) && Unwrap(m, envelope.encryptedDek[..]).Some?
    ensures var plain := Opened(m, envelope.tokenCiphertext[..], envelope.encryptedDek[..]);
            && (r.Some? <==> plain.Some? && !(m.kms.Some? && kmsFails))
            && (r.Some? ==> fresh(r.value) && r.value != dek && r.value[..] == plain.value)
    ensures r.Some? ==> dek != null && (dek.Length == 16 || dek.Length == 24 || dek.Length == 32)
    ensures r.Some? ==> var (ct, wrapped) := (envelope.tokenCiphertext[..], envelope.encryptedDek[..]);
                        && |ct| >= 12 && (m.kms.None? ==> |wrapped| > 13)
                        && (m.kms.None? ==> m.cipher.open(wrapped[13..], ct[..12], ct[12..]) == Some(r.value[..]))
                        && (m.kms.Some? ==>
                              && m.kms.value.unwrap(wrapped).Some?
                              && m.cipher.open(m.kms.value.unwrap(wrapped).value, ct[..12], ct[12..])
                                 == Some(r.value[..]))
  {
    dek, plaintext := null, null;
    if m.kms.Some? && kmsFails {
      return None, null, null;
    }
    var wrapped := envelope.encryptedDek[..];
    var unwrapped := Unwrap(m, wrapped);
    if unwrapped.None? {
      return None, null, null;
    }
    var key: array<byte>;
    if m.kms.Some? {
      var response := Copy(unwrapped.value);
      key := Copy(response[..]);
      ZeroBytes(response);
      plaintext := response;
    } else {
      key := Copy(unwrapped.value);
    }
    dek := key;
    var ciphertext := envelope.tokenCiphertext[..];
    assert key[..] == unwrapped.value;
    if !IsCipherKey(key[..]) || |ciphertext| < NONCE_SIZE {
      ZeroBytes(key);
      return None, key, plaintext;
    }
    var token := m.cipher.open(key[..], ciphertext[..NONCE_SIZE], ciphertext[NONCE_SIZE..]);
    if token.None? {
      ZeroBytes(key);
      return None, key, plaintext;
    }
    var result := Copy(token.value);
    ZeroBytes(key);
    return Some(result), key, plaintext;
  }

  /** Round trip, repeatedly: encrypting zeroed its key and decrypting zeroed its own, and still
      every later decryption returns the token. */
  method EncryptThenDecryptTwice(m: Manager, token: array<byte>, keyBytes: Bytes, nonceBytes: Bytes, salt: int)
    returns (first: Option<array<byte>>, second: Option<array<byte>>)
    requires Lawful(m) && |keyBytes| == 32 && |nonceBytes| == 12
    ensures first.Some? && second.Some?
    ensures first.value[..] == token[..] && second.value[..] == token[..]
    ensures token[..] == old(token[..])
  {
    ghost var dek, plaintext;
    var envelope;
    envelope, dek := EncryptToken(m, token, Some(keyBytes), Some(nonceBytes), salt, false);
    SealedOpens(m, token[..], envelope.value.tokenCiphertext[..], envelope.value.encryptedDek[..]);
    first, dek, plaintext := DecryptToken(m, envelope.value, false);
    second, dek, plaintext := DecryptToken(m, envelope.value, false);
  }
}
