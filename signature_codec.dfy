/**
 * `utils/signature.js`: an AES-256-CBC codec with a fresh random IV per
 * message, written out as `hex(iv) ":" hex(ciphertext)`, that maps every
 * failure to the empty string; and an HMAC-SHA256 signer whose verifier
 * refuses a missing signature. Keys come from the environment with fixed
 * fallbacks. No route of the application imports this module.
 */
module RandomIvCodec {
  import opened Wrappers
  import opened Octets
  import Hex
  import Utf8
  import opened NodeCrypto
  import JsString

  /** The two environment variables the module reads at load time. */
  datatype Env = Env(encryptionSecret: Option<string>, signSecret: Option<string>)

  const DefaultSecret: string := "medicare_secret"
  const DefaultSignSecret: string := "medicare_sign_secret"

  /** `process.env.X || fallback`: an unset or empty variable yields the fallback. */
  function EnvOr(env: Option<string>, fallback: string): (r: string)
    ensures env.Some? && env.value != "" ==> r == env.value
    ensures env.None? || env.value == "" ==> r == fallback
  {
    if env.Some? && env.value != "" then env.value else fallback
  }

  /** `SECRET_KEY`: SHA-256 of the secret. */
  function SecretKey(lib: Library, env: Env): (k: Bytes)
    requires Sound(lib)
    ensures |k| == KeyLength
  {
    lib.sha256(Utf8.Encode(EnvOr(env.encryptionSecret, DefaultSecret)))
  }

  /** `encrypt(text)`, with `iv` the 16 bytes `crypto.randomBytes` returned. */
  function Encrypt(lib: Library, env: Env, text: Option<string>, iv: Bytes): (r: string)
    requires Sound(lib) && |iv| == BlockLength
    ensures JsString.Falsy(text) <==> r == ""
  {
    if JsString.Falsy(text) then ""
    else Hex.Encode(iv) + ":" + Hex.Encode(Cipher(lib, SecretKey(lib, env), iv, Utf8.Encode(text.value)).value)
  }

  /** The body of the `try` in `decrypt`, on the first two `:`-separated pieces. */
  function DecryptParts(lib: Library, env: Env, ivHex: string, encrypted: Option<string>): Result<string, CipherError>
    requires Sound(lib)
  {
    var iv := Hex.Decode(ivHex);
    if |iv| != BlockLength then Failure(InvalidIv)
    else match encrypted
      case None => Failure(NotAString)
      case Some(e) =>
        var c :- HexInput(e);
        var m :- Decipher(lib, SecretKey(lib, env), iv, c);
        Success(Utf8.Decode(m))
  }

  /** `decrypt(text)`: falsy input and every thrown error give `""`. */
  function Decrypt(lib: Library, env: Env, text: Option<string>): (r: string)
    requires Sound(lib)
    ensures JsString.Falsy(text) ==> r == ""
  {
    if JsString.Falsy(text) then ""
    else
      var pieces := JsString.Split(text.value, ':');
      var encrypted := if |pieces| > 1 then Some(pieces[1]) else None;
      match DecryptParts(lib, env, pieces[0], encrypted)
      case Success(plain) => plain
      case Failure(_) => ""
  }

  /**
   * The wire format of a non-empty encryption: 32 lower-case hex digits of IV,
   * a colon at index 32, then the hex of whole ciphertext blocks.
   */
  lemma EncryptFormat(lib: Library, env: Env, text: string, iv: Bytes)
    requires Sound(lib) && |iv| == BlockLength && text != ""
    ensures var r := Encrypt(lib, env, Some(text), iv);
      && |r| == 33 + 32 * (|Utf8.Encode(text)| / 16 + 1)
      && r[..32] == Hex.Encode(iv)
      && r[32] == ':'
      && (forall i :: 0 <= i < |r| && i != 32 ==> Hex.IsLowerHexDigit(r[i]))
  {
    var m := Utf8.Encode(text);
    var c := Cipher(lib, SecretKey(lib, env), iv, m).value;
    var a := Hex.Encode(iv);
    var b := Hex.Encode(c);
    var r := Encrypt(lib, env, Some(text), iv);
    assert r == a + ":" + b;
    assert |b| == 2 * |c| == 32 * (|m| / 16 + 1);
    JoinedShape(a, b, r);
  }

  /** Two runs of lower-case hex joined by a colon after the 32-digit first run. */
  lemma JoinedShape(a: string, b: string, r: string)
    requires r == a + ":" + b && |a| == 32
    requires forall i :: 0 <= i < |a| ==> Hex.IsLowerHexDigit(a[i])
    requires forall i :: 0 <= i < |b| ==> Hex.IsLowerHexDigit(b[i])
    ensures |r| == 33 + |b| && r[..32] == a && r[32] == ':'
    ensures forall i :: 0 <= i < |r| && i != 32 ==> Hex.IsLowerHexDigit(r[i])
  {
    forall i | 0 <= i < |r| && i != 32
      ensures Hex.IsLowerHexDigit(r[i])
    {
      if i < 32 { assert r[i] == a[i]; } else { assert r[i] == b[i - 33]; }
    }
  }

  /** A message encrypted with any IV decrypts back to itself. */
  lemma DecryptEncrypt(lib: Library, env: Env, text: string, iv: Bytes)
    requires Sound(lib) && |iv| == BlockLength && text != ""
    ensures Decrypt(lib, env, Some(Encrypt(lib, env, Some(text), iv))) == text
  {
    var c := Cipher(lib, SecretKey(lib, env), iv, Utf8.Encode(text)).value;
    var a := Hex.Encode(iv);
    var b := Hex.Encode(c);
    assert Encrypt(lib, env, Some(text), iv) == a + [':'] + b;
    Hex.EncodeExcludes(iv, ':');
    Hex.EncodeExcludes(c, ':');
    JsString.SplitAtFirst(a, ':', b);
    JsString.SplitNoSeparator(b, ':');
    assert JsString.Split(a + [':'] + b, ':') == [a, b];
    var m := Utf8.Encode(text);
    DecipherCipher(lib, SecretKey(lib, env), iv, m);
    DecryptPartsHex(lib, env, iv, c, m);
    Utf8.DecodeEncode(text);
  }

  /** The hex pieces of an IV and a ciphertext that deciphers to `m` decrypt to the UTF-8 reading of `m`. */
  lemma DecryptPartsHex(lib: Library, env: Env, iv: Bytes, c: Bytes, m: Bytes)
    requires Sound(lib) && |iv| == BlockLength
    requires Decipher(lib, SecretKey(lib, env), iv, c) == Success(m)
    ensures DecryptParts(lib, env, Hex.Encode(iv), Some(Hex.Encode(c))) == Success(Utf8.Decode(m))
  {
    Hex.DecodeEncode(iv);
    HexInputEncode(c);
    DecryptPartsOf(lib, env, Hex.Encode(iv), Hex.Encode(c), iv, c, m);
  }

  /** The `try` body on pieces that decode to a 16-byte IV and to a ciphertext that deciphers to `m`. */
  lemma DecryptPartsOf(lib: Library, env: Env, ivHex: string, cHex: string, iv: Bytes, c: Bytes, m: Bytes)
    requires Sound(lib) && |iv| == BlockLength && Hex.Decode(ivHex) == iv
    requires HexInput(cHex) == Success(c)
    requires Decipher(lib, SecretKey(lib, env), iv, c) == Success(m)
    ensures DecryptParts(lib, env, ivHex, Some(cHex)) == Success(Utf8.Decode(m))
  {
  }

  /** Malformed inputs fail closed: no colon, or a first piece that is not a 16-byte IV, yields `""`. */
  lemma DecryptMalformed(lib: Library, env: Env, text: string)
    requires Sound(lib)
    requires ':' !in text || |Hex.Decode(JsString.Split(text, ':')[0])| != BlockLength
    ensures Decrypt(lib, env, Some(text)) == ""
  {
    if ':' !in text {
      JsString.SplitNoSeparator(text, ':');
    }
  }

  /** `signData(data)`: HMAC-SHA256 under `SIGN_SECRET`, as lower-case hex. */
  function SignData(lib: Library, env: Env, data: string): (sig: string)
    requires Sound(lib)
    ensures |sig| == 64
    ensures forall i :: 0 <= i < |sig| ==> Hex.IsLowerHexDigit(sig[i])
  {
    Hex.Encode(lib.hmacSha256(Utf8.Encode(EnvOr(env.signSecret, DefaultSignSecret)), Utf8.Encode(data)))
  }

  /** `verifySignature(data, signature)`: a falsy signature is refused before any comparison. */
  function VerifySignature(lib: Library, env: Env, data: string, signature: Option<string>): bool
    requires Sound(lib)
  {
    if JsString.Falsy(signature) then false else Some(SignData(lib, env, data)) == signature
  }

  /** A signature verifies exactly when it is the data's own; a falsy one never does. */
  lemma VerifySignatureExactly(lib: Library, env: Env, data: string, signature: Option<string>)
    requires Sound(lib)
    ensures VerifySignature(lib, env, data, signature) <==> signature == Some(SignData(lib, env, data))
    ensures JsString.Falsy(signature) ==> !VerifySignature(lib, env, data, signature)
  {
  }
}
