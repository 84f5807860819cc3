/** Byte strings, and authenticated encryption as an oracle with its inverse law. */
module Bytes {
  import opened Wrappers

  type Byte = x: int | 0 <= x < 256
  type ByteString = seq<Byte>

  const NONCE_SIZE := 12

  /** AES-GCM under (key, nonce); `open` fails on anything not sealed. */
  datatype Aead = Aead(
    seal: (ByteString, ByteString, ByteString) -> ByteString,
    open: (ByteString, ByteString, ByteString) -> Option<ByteString>)

  ghost predicate Lawful(a: Aead) {
    forall key, nonce, plain {:trigger a.seal(key, nonce, plain)} ::
      a.open(key, nonce, a.seal(key, nonce, plain)) == Some(plain)
  }

  /** Crypto.Encrypt: nonce, then ciphertext and tag. */
  function Encrypt(a: Aead, key: ByteString, nonce: ByteString, plain: ByteString): ByteString
    requires |nonce| == NONCE_SIZE
  {
    nonce + a.seal(key, nonce, plain)
  }

  /** Crypto.Decrypt; None stands for an error. */
  function Decrypt(a: Aead, key: ByteString, data: ByteString): Option<ByteString> {
    if |data| < NONCE_SIZE then None else a.open(key, data[..NONCE_SIZE], data[NONCE_SIZE..])
  }

  lemma DecryptEncrypt(a: Aead, key: ByteString, nonce: ByteString, plain: ByteString)
    requires Lawful(a) && |nonce| == NONCE_SIZE
    ensures Decrypt(a, key, Encrypt(a, key, nonce, plain)) == Some(plain)
  {
    var data := Encrypt(a, key, nonce, plain);
    assert data[..NONCE_SIZE] == nonce && data[NONCE_SIZE..] == a.seal(key, nonce, plain);
  }

  /** Nothing decrypts that is shorter than a nonce, and the first bytes are the nonce
      under which the rest opens. */
  lemma DecryptMeans(a: Aead, key: ByteString, nonce: ByteString, rest: ByteString)
    requires |nonce| == 12
    ensures Decrypt(a, key, nonce + rest) == a.open(key, nonce, rest)
    ensures forall short: ByteString :: |short| < 12 ==> Decrypt(a, key, short) == None
  {
    assert (nonce + rest)[..12] == nonce && (nonce + rest)[12..] == rest;
  }
}
