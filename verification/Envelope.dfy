/** End-to-end encryption in the browser: the text envelope around salt, nonce and
    ciphertext, and the decoder that undoes it. */
module Envelope {
  import opened Base64
  import opened Bytes
  import opened Strings
  import opened Wrappers

  const PREFIX := "v2:"
  const CHUNK := 8192
  const SALT_SIZE := 16
  /** More arguments than this may overflow the stack. */
  const MAX_ARGUMENTS := 100_000

  /** The Web Crypto and text-codec calls; keys are named by the bytes they stand for. */
  datatype Web = Web(
    derive: (string, ByteString) -> ByteString,
    aead: Aead,
    encode: string -> ByteString,
    decode: ByteString -> string)

  // The specification.

  function Frame(salt: ByteString, iv: ByteString, cipher: ByteString): Option<string> {
    Btoa(Binary(salt + iv + cipher))
  }

  /** aesEncrypt, given the random bytes it draws. */
  function Sealed(w: Web, salt: ByteString, iv: ByteString, plaintext: string, password: string): Option<string> {
    var cipher := w.aead.seal(w.derive(password, salt), iv, w.encode(plaintext));
    var framed := Frame(salt, iv, cipher);
    if framed.None? then None else Some(PREFIX + framed.value)
  }

  /** White space and line terminators of ECMAScript, the set `trim` removes. */
  predicate JsSpace(c: char) {
    || '\U{0009}' <= c <= '\U{000D}' || c == ' ' || c == '\U{00A0}' || c == '\U{1680}'
    || '\U{2000}' <= c <= '\U{200A}' || c == '\U{2028}' || c == '\U{2029}' || c == '\U{202F}'
    || c == '\U{205F}' || c == '\U{3000}' || c == '\U{FEFF}'
  }

  /** `slice` and `subarray`, which clamp their bounds. */
  function Slice(b: ByteString, lo: nat, hi: nat): ByteString
    requires lo <= hi
  {
    Drop(if hi <= |b| then b[..hi] else b, lo)
  }

  function Drop(b: ByteString, lo: nat): ByteString {
    if lo <= |b| then b[lo..] else []
  }

  /** What storing each character code into a byte array keeps. */
  function LowBytes(s: string): ByteString {
    seq(|s|, i requires 0 <= i < |s| => s[i] as int % 256)
  }

  function Unframe(w: Web, raw: ByteString, password: string): Option<string> {
    var salt, iv, cipher := Slice(raw, 0, 16), Slice(raw, 16, 28), Drop(raw, 28);
    var plain := w.aead.open(w.derive(password, salt), iv, cipher);
    if plain.None? then None else Some(w.decode(plain.value))
  }

  /** aesDecrypt. */
  function Opened(w: Web, cipherText: string, password: string): Option<string> {
    var input := Trim(cipherText, JsSpace);
    if !(PREFIX <= input) then None
    else
      var binary := Atob(input[|PREFIX|..]);
      if binary.None? then None else Unframe(w, LowBytes(binary.value), password)
  }

  // The code.

  function FromCharCode(args: ByteString): string
    requires |args| <= MAX_ARGUMENTS
  {
    Binary(args)
  }

  method Uint8ToBase64(arr: array<Byte>) returns (s: Option<string>)
    ensures s == Btoa(Binary(arr[..]))
  {
    var binary := "";
    var i := 0;
    while i < arr.Length
      invariant binary == Binary(Slice(arr[..], 0, i))
    {
      binary := binary + FromCharCode(Slice(arr[..], i, i + CHUNK));
      BinaryGrows(arr[..], i, i + CHUNK);
      i := i + CHUNK;
    }
    assert Slice(arr[..], 0, i) == arr[..];
    return Btoa(binary);
  }

  lemma BinaryGrows(b: ByteString, lo: nat, hi: nat)
    requires lo <= hi
    ensures Binary(Slice(b, 0, lo)) + Binary(Slice(b, lo, hi)) == Binary(Slice(b, 0, hi))
  {}

  /** `out.set(src, offset)`. */
  method Set(out: array<Byte>, src: ByteString, offset: nat)
    requires offset + |src| <= out.Length
    modifies out
    ensures out[..] == old(out[..offset]) + src + old(out[offset + |src|..])
  {
    forall i | 0 <= i < |src| { out[offset + i] := src[i]; }
  }

  /** The three writes tile `out`: nothing of its first content is left. */
  method Assemble(salt: ByteString, iv: ByteString, ct: ByteString) returns (out: array<Byte>)
    ensures fresh(out) && out[..] == salt + iv + ct
  {
    out := new Byte[|salt| + |iv| + |ct|];
    Set(out, salt, 0);
    assert out[..|salt|] == salt;
    Set(out, iv, |salt|);
    assert out[..|salt| + |iv|] == salt + iv;
    Set(out, ct, |salt| + |iv|);
  }

  method AesEncrypt(w: Web, salt: ByteString, iv: ByteString, plaintext: string, password: string)
    returns (s: Option<string>)
    requires |salt| == SALT_SIZE && |iv| == NONCE_SIZE
    ensures s == Sealed(w, salt, iv, plaintext, password)
  {
    var key := w.derive(password, salt);
    var ct := w.aead.seal(key, iv, w.encode(plaintext));
    var out := Assemble(salt, iv, ct);
    s := Uint8ToBase64(out);
    if s.Some? { s := Some(PREFIX + s.value); }
  }

  method ToBytes(binary: string) returns (raw: array<Byte>)
    ensures fresh(raw) && raw[..] == LowBytes(binary)
  {
    raw := new Byte[|binary|];
    for i := 0 to |binary|
      invariant raw[..i] == LowBytes(binary)[..i]
    {
      raw[i] := binary[i] as int % 256;
    }
  }

  method AesDecrypt(w: Web, cipherText: string, password: string) returns (r: Option<string>)
    ensures r == Opened(w, cipherText, password)
  {
    var input := Trim(cipherText, JsSpace);
    if !(PREFIX <= input) { return None; }
    var binary := Atob(input[|PREFIX|..]);
    if binary.None? { return None; }
    var raw := ToBytes(binary.value);
    var salt, iv := Slice(raw[..], 0, 16), Slice(raw[..], 16, 28);
    var cipherBuf := Drop(raw[..], 28);
    var key := w.derive(password, salt);
    var plain := w.aead.open(key, iv, cipherBuf);
    if plain.None? { return None; }
    return Some(w.decode(plain.value));
  }

  // What the two do to each other.

  lemma LowBytesOfBinary(b: ByteString)
    ensures LowBytes(Binary(b)) == b
  {}

  /** Whatever white space surrounds an envelope, the decoder asks for exactly the
      salt, nonce and ciphertext that were framed, under any password. */
  lemma FramingIsExact(w: Web, pre: string, salt: ByteString, iv: ByteString, cipher: ByteString, post: string,
                       password: string)
    requires |salt| == SALT_SIZE && |iv| == NONCE_SIZE
    requires All(pre, JsSpace) && All(post, JsSpace)
    ensures var framed := Frame(salt, iv, cipher); var plain := w.aead.open(w.derive(password, salt), iv, cipher);
      && framed.Some?
      && Opened(w, pre + (PREFIX + framed.value) + post, password)
        == if plain.None? then None else Some(w.decode(plain.value))
  {
    var raw := salt + iv + cipher;
    AtobUndoesBtoa(raw);
    var s := PREFIX + Frame(salt, iv, cipher).value;
    LastIsNoSpace(raw);
    TrimDrops(pre, s, post, JsSpace);
    LowBytesOfBinary(raw);
    assert Slice(raw, 0, 16) == salt && Slice(raw, 16, 28) == iv && raw[28..] == cipher;
  }

  lemma LastIsNoSpace(raw: ByteString)
    ensures var s := Btoa(Binary(raw)); s.Some? && !JsSpace((PREFIX + s.value)[|PREFIX + s.value| - 1])
  {
    BtoaOfBytes(raw);
    DigitsRoundTrip(Sextets(raw));
    var s := Digits(Sextets(raw)) + Padding(|raw|);
    if s != "" && Padding(|raw|) == "" { assert IsDigit(Digits(Sextets(raw))[|s| - 1]); }
  }

  /** Main result: the right password gives back the plaintext, whatever white space
      was picked up around the envelope on the way. */
  lemma DecryptUndoesEncrypt(w: Web, pre: string, salt: ByteString, iv: ByteString, plaintext: string,
                             password: string, post: string)
    requires Lawful(w.aead) && w.decode(w.encode(plaintext)) == plaintext
    requires |salt| == SALT_SIZE && |iv| == NONCE_SIZE
    requires All(pre, JsSpace) && All(post, JsSpace)
    ensures var s := Sealed(w, salt, iv, plaintext, password);
      s.Some? && "v2:" <= s.value && Opened(w, pre + s.value + post, password) == Some(plaintext)
  {
    FramingIsExact(w, pre, salt, iv, w.aead.seal(w.derive(password, salt), iv, w.encode(plaintext)), post, password);
  }

  /** Main result: nothing but an envelope opens. What opens is, between white space, the
      prefix and Base64 text; its first 16 bytes are the salt of the key, its next 12 the
      nonce, and the rest opens under them to what comes out. */
  lemma OnlyEnvelopesOpen(w: Web, text: string, password: string) returns (pre: string, body: string, post: string)
    requires Opened(w, text, password).Some?
    ensures text == pre + ("v2:" + body) + post && All(pre, JsSpace) && All(post, JsSpace)
    ensures Atob(body).Some?
    ensures var raw := LowBytes(Atob(body).value);
      var plain := w.aead.open(w.derive(password, Slice(raw, 0, 16)), Slice(raw, 16, 28), Drop(raw, 28));
      plain.Some? && Opened(w, text, password) == Some(w.decode(plain.value))
  {
    pre, post := TrimTakes(text, JsSpace);
    body := Trim(text, JsSpace)[|PREFIX|..];
    BehindPrefix(Trim(text, JsSpace), PREFIX);
  }

  lemma BehindPrefix(s: string, prefix: string)
    requires prefix <= s
    ensures s == prefix + s[|prefix|..]
  {
  }
}
