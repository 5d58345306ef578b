/**
 * `utils/crypto.js`: AES-256-CBC under a fixed SHA-256-derived key and an
 * all-zero IV, HMAC-SHA256 signing, and the Diffie-Hellman slot that, once a
 * shared key has been derived, replaces the fixed key for the session helpers.
 */
module CryptoFacade {
  import opened Wrappers
  import opened Octets
  import Hex
  import Utf8
  import opened NodeCrypto

  const SecretKeyPhrase: string := "medicare-secret-key"
  const SignKeyPhrase: string := "medicare-sign-key"

  /** The UTF-8 bytes of the two phrases: the key material the primitives receive. */
  const SecretKeyBytes: Bytes := [109, 101, 100, 105, 99, 97, 114, 101, 45, 115, 101, 99, 114, 101, 116, 45, 107, 101, 121]
  const SignKeyBytes: Bytes := [109, 101, 100, 105, 99, 97, 114, 101, 45, 115, 105, 103, 110, 45, 107, 101, 121]

  /** Both byte strings are the UTF-8 encodings of the phrases (which are ASCII). */
  lemma KeyBytesAreUtf8(phrase: string)
    requires phrase == SecretKeyPhrase || phrase == SignKeyPhrase
    ensures Utf8.Encode(phrase) == if phrase == SecretKeyPhrase then SecretKeyBytes else SignKeyBytes
  {
    Utf8.EncodesAs(phrase, if phrase == SecretKeyPhrase then SecretKeyBytes else SignKeyBytes);
  }

  /** `Buffer.alloc(16, 0)`. */
  const ZeroIv: Bytes := [0, 0, 0, 0, 0, 0, 0, 0, 0, 0, 0, 0, 0, 0, 0, 0]

  /** `SECRET_KEY`: the SHA-256 digest of the UTF-8 phrase. */
  function StaticKey(lib: Library): (k: Bytes)
    requires Sound(lib)
    ensures |k| == KeyLength
  {
    lib.sha256(SecretKeyBytes)
  }

  /** AES-256-CBC of the UTF-8 text under `key` and the zero IV, as lower-case hex. */
  function EncryptUnder(lib: Library, key: Bytes, text: string): (r: string)
    requires Sound(lib) && |key| == KeyLength
    ensures |r| == 32 * (|Utf8.Encode(text)| / 16 + 1)
    ensures forall i :: 0 <= i < |r| ==> Hex.IsLowerHexDigit(r[i])
  {
    Hex.Encode(Cipher(lib, key, ZeroIv, Utf8.Encode(text)).value)
  }

  /**
   * The matching decryption. `None` is a missing field (`update(undefined)` throws);
   * every failure propagates to the caller as an exception would.
   */
  function DecryptUnder(lib: Library, key: Bytes, encrypted: Option<string>): (r: Result<string, CipherError>)
    requires Sound(lib) && |key| == KeyLength
    ensures encrypted.None? ==> r == Failure(NotAString)
    ensures encrypted.Some? && |encrypted.value| % 2 == 1 ==> r == Failure(OddHexLength)
  {
    match encrypted
    case None => Failure(NotAString)
    case Some(s) =>
      var c :- HexInput(s);
      var m :- Decipher(lib, key, ZeroIv, c);
      Success(Utf8.Decode(m))
  }

  /** Decryption under a key undoes encryption under the same key. */
  lemma DecryptEncryptUnder(lib: Library, key: Bytes, text: string)
    requires Sound(lib) && |key| == KeyLength
    ensures DecryptUnder(lib, key, Some(EncryptUnder(lib, key, text))) == Success(text)
  {
    var m := Utf8.Encode(text);
    var c := Cipher(lib, key, ZeroIv, m).value;
    DecipherCipher(lib, key, ZeroIv, m);
    DecryptUnderHex(lib, key, c, m);
    Utf8.DecodeEncode(text);
  }

  /** The hex of a ciphertext that deciphers to `m` decrypts to the UTF-8 reading of `m`. */
  lemma DecryptUnderHex(lib: Library, key: Bytes, c: Bytes, m: Bytes)
    requires Sound(lib) && |key| == KeyLength
    requires Decipher(lib, key, ZeroIv, c) == Success(m)
    ensures DecryptUnder(lib, key, Some(Hex.Encode(c))) == Success(Utf8.Decode(m))
  {
    Hex.DecodeEncode(c);
    assert HexInput(Hex.Encode(c)) == Success(c);
  }

  /** `encrypt(text)`. */
  function Encrypt(lib: Library, text: string): (c: string)
    requires Sound(lib)
    ensures |c| == 32 * (|Utf8.Encode(text)| / 16 + 1)
    ensures forall i :: 0 <= i < |c| ==> Hex.IsLowerHexDigit(c[i])
  {
    EncryptUnder(lib, StaticKey(lib), text)
  }

  /** `decrypt(encryptedText)`. */
  function Decrypt(lib: Library, encrypted: Option<string>): (r: Result<string, CipherError>)
    requires Sound(lib)
    ensures encrypted.None? ==> r == Failure(NotAString)
    ensures encrypted.Some? && |encrypted.value| % 2 == 1 ==> r == Failure(OddHexLength)
  {
    DecryptUnder(lib, StaticKey(lib), encrypted)
  }

  /** The static pair round-trips every string. */
  lemma StaticRoundTrip(lib: Library, text: string)
    requires Sound(lib)
    ensures Decrypt(lib, Some(Encrypt(lib, text))) == Success(text)
  {
    DecryptEncryptUnder(lib, StaticKey(lib), text);
  }

  /**
   * With a constant key and IV the static cipher is deterministic; the round trip
   * makes it injective as well: equal ciphertexts come only from equal plaintexts.
   */
  lemma StaticEncryptInjective(lib: Library, a: string, b: string)
    requires Sound(lib)
    ensures Encrypt(lib, a) == Encrypt(lib, b) <==> a == b
  {
    StaticRoundTrip(lib, a);
    StaticRoundTrip(lib, b);
  }

  /** `signData(data)`: HMAC-SHA256 under the UTF-8 sign phrase, as lower-case hex. */
  function SignData(lib: Library, data: string): (sig: string)
    requires Sound(lib)
    ensures |sig| == 64
    ensures forall i :: 0 <= i < |sig| ==> Hex.IsLowerHexDigit(sig[i])
  {
    Hex.Encode(lib.hmacSha256(SignKeyBytes, Utf8.Encode(data)))
  }

  /** `verifySignature(data, signature)`: strict equality; `None` is a missing signature. */
  function VerifySignature(lib: Library, data: string, signature: Option<string>): bool
    requires Sound(lib)
  {
    Some(SignData(lib, data)) == signature
  }

  /**
   * A signature verifies exactly when it is the data's own signature, so a fresh
   * signature verifies, and a missing or empty one never does.
   */
  lemma VerifySignatureExactly(lib: Library, data: string, signature: Option<string>)
    requires Sound(lib)
    ensures VerifySignature(lib, data, signature) <==> signature == Some(SignData(lib, data))
    ensures VerifySignature(lib, data, Some(SignData(lib, data)))
    ensures !VerifySignature(lib, data, None) && !VerifySignature(lib, data, Some(""))
  {
  }

  // ---------------------------------------------------------------- key exchange

  /** A `createDiffieHellman(2048)` object after `generateKeys()`; its randomness is an input. */
  datatype DhInstance = DhInstance(prime: Bytes, generator: Bytes, privateKey: Bytes, publicKey: Bytes)

  /** What `generateDHKeys` returns: hex strings of the group and of the public key. */
  datatype DhPublic = DhPublic(prime: string, generator: string, publicKey: string)

  datatype KxError =
    | NotInitialized          // "DH keys not initialized"
    | InvalidPeerKey          // computeSecret refused the client's key

  /** The two module-level slots `dhInstance` and `sharedSessionKey`. */
  datatype KxState = KxState(dhInstance: Option<DhInstance>, sharedSessionKey: Option<Bytes>)

  const InitialKxState := KxState(None, None)

  /** The session key, when present, is a SHA-256 digest. */
  predicate ValidSessionKey(k: Option<Bytes>) {
    k.Some? ==> |k.value| == KeyLength
  }

  predicate ValidKx(s: KxState) {
    ValidSessionKey(s.sharedSessionKey)
  }

  function PublicParams(inst: DhInstance): (r: DhPublic)
    ensures r.publicKey == Hex.Encode(inst.publicKey)
  {
    DhPublic(Hex.Encode(inst.prime), Hex.Encode(inst.generator), Hex.Encode(inst.publicKey))
  }

  /** `generateDHKeys()`: replaces `dhInstance` and nothing else. */
  function Init(s: KxState, inst: DhInstance): (r: KxState)
    ensures r.dhInstance == Some(inst) && r.sharedSessionKey == s.sharedSessionKey
  {
    s.(dhInstance := Some(inst))
  }

  /** The key `computeSharedKey` derives: SHA-256 of the UTF-8 of the hex secret. */
  function SessionKeyFromSecret(lib: Library, secret: Bytes): (k: Bytes)
    requires Sound(lib)
    ensures |k| == KeyLength
  {
    lib.sha256(Utf8.Encode(Hex.Encode(secret)))
  }

  /** `computeSharedKey(clientPublicKeyHex)`: the new state and the hex key returned, or the error thrown. */
  function Complete(lib: Library, s: KxState, clientPublicKeyHex: string): (r: (KxState, Result<string, KxError>))
    requires Sound(lib)
    ensures r.0.dhInstance == s.dhInstance
    ensures r.1.Failure? ==> r.0 == s
    ensures s.dhInstance.None? ==> r.1 == Failure(NotInitialized)
    ensures r.1.Success? ==> r.0.sharedSessionKey.Some? && r.1.value == Hex.Encode(r.0.sharedSessionKey.value)
    ensures s.dhInstance.Some? ==>
              var dh := s.dhInstance.value;
              var secret := lib.dhComputeSecret(dh.prime, dh.generator, dh.privateKey, Hex.Decode(clientPublicKeyHex));
              (r.1.Success? <==> secret.Some?) &&
              (secret.None? ==> r.1 == Failure(InvalidPeerKey)) &&
              (r.1.Success? ==> r.0.sharedSessionKey == Some(SessionKeyFromSecret(lib, secret.value)))
  {
    match s.dhInstance
    case None => (s, Failure(NotInitialized))
    case Some(dh) =>
      match lib.dhComputeSecret(dh.prime, dh.generator, dh.privateKey, Hex.Decode(clientPublicKeyHex))
      case None => (s, Failure(InvalidPeerKey))
      case Some(secret) =>
        var key := SessionKeyFromSecret(lib, secret);
        (s.(sharedSessionKey := Some(key)), Success(Hex.Encode(key)))
  }

  /** One request that touches the key-exchange slots. */
  datatype KxEvent = InitEvent(inst: DhInstance) | CompleteEvent(clientPublicKeyHex: string)

  function Step(lib: Library, s: KxState, e: KxEvent): KxState
    requires Sound(lib)
  {
    match e
    case InitEvent(inst) => Init(s, inst)
    case CompleteEvent(hex) => Complete(lib, s, hex).0
  }

  /** The state after a sequence of requests handled one at a time. */
  function Run(lib: Library, s: KxState, events: seq<KxEvent>): KxState
    requires Sound(lib)
    decreases |events|
  {
    if events == [] then s else Run(lib, Step(lib, s, events[0]), events[1..])
  }

  lemma StepKeepsValid(lib: Library, s: KxState, e: KxEvent)
    requires Sound(lib) && ValidKx(s)
    ensures ValidKx(Step(lib, s, e))
    ensures s.sharedSessionKey.Some? ==> Step(lib, s, e).sharedSessionKey.Some?
  {
  }

  /** Every state reachable from a valid one is valid, and a derived key is never reset to null. */
  lemma {:induction false} RunKeepsKey(lib: Library, s: KxState, events: seq<KxEvent>)
    requires Sound(lib) && ValidKx(s)
    ensures ValidKx(Run(lib, s, events))
    ensures s.sharedSessionKey.Some? ==> Run(lib, s, events).sharedSessionKey.Some?
    decreases |events|
  {
    if events != [] {
      StepKeepsValid(lib, s, events[0]);
      RunKeepsKey(lib, Step(lib, s, events[0]), events[1..]);
    }
  }

  /** Run over a concatenation is the run of the second part from where the first ended. */
  lemma {:induction false} RunAppend(lib: Library, s: KxState, a: seq<KxEvent>, b: seq<KxEvent>)
    requires Sound(lib)
    ensures Run(lib, s, a + b) == Run(lib, Run(lib, s, a), b)
    decreases |a|
  {
    if a == [] {
      assert a + b == b;
    } else {
      assert (a + b)[0] == a[0];
      assert (a + b)[1..] == a[1..] + b;
      RunAppend(lib, Step(lib, s, a[0]), a[1..], b);
    }
  }

  /**
   * Once a `computeSharedKey` has succeeded, every later state of the process
   * holds a session key, so the static fallback is never taken again.
   */
  lemma FallbackNeverAfterSuccess(lib: Library, before: seq<KxEvent>, hex: string, after: seq<KxEvent>)
    requires Sound(lib)
    requires Complete(lib, Run(lib, InitialKxState, before), hex).1.Success?
    ensures Run(lib, InitialKxState, before + [CompleteEvent(hex)] + after).sharedSessionKey.Some?
  {
    var mid := Run(lib, InitialKxState, before);
    RunKeepsKey(lib, InitialKxState, before);
    RunAppend(lib, InitialKxState, before, [CompleteEvent(hex)]);
    RunAppend(lib, InitialKxState, before + [CompleteEvent(hex)], after);
    var s1 := Run(lib, InitialKxState, before + [CompleteEvent(hex)]);
    assert s1 == Complete(lib, mid, hex).0;
    RunKeepsKey(lib, s1, after);
  }

  /** Completing before any `generateDHKeys` throws and leaves the key untouched. */
  lemma CompleteBeforeInit(lib: Library, hex: string)
    requires Sound(lib)
    ensures Complete(lib, InitialKxState, hex) == (InitialKxState, Failure(NotInitialized))
  {
  }

  /**
   * `generateDHKeys` does not disturb a derived key: after init, the session
   * helpers keep using the previous key until the next successful complete.
   */
  lemma InitKeepsSessionKey(lib: Library, s: KxState, inst: DhInstance, hex: string)
    requires Sound(lib)
    ensures Init(s, inst).sharedSessionKey == s.sharedSessionKey
    ensures Complete(lib, Init(s, inst), hex).1.Failure? ==>
              Complete(lib, Init(s, inst), hex).0.sharedSessionKey == s.sharedSessionKey
  {
  }

  // ---------------------------------------------------------------- session helpers

  /** The key the session helpers use: the shared key when there is one, else `SECRET_KEY`. */
  function ActiveKey(lib: Library, sessionKey: Option<Bytes>): (k: Bytes)
    requires Sound(lib) && ValidSessionKey(sessionKey)
    ensures |k| == KeyLength
    ensures sessionKey.None? ==> k == StaticKey(lib)
    ensures sessionKey.Some? ==> k == sessionKey.value
  {
    if sessionKey.None? then StaticKey(lib) else sessionKey.value
  }

  /** `encryptWithSessionKey(text)` under the given value of `sharedSessionKey`. */
  function SessionEncrypt(lib: Library, sessionKey: Option<Bytes>, text: string): (c: string)
    requires Sound(lib) && ValidSessionKey(sessionKey)
    ensures |c| == 32 * (|Utf8.Encode(text)| / 16 + 1)
    ensures forall i :: 0 <= i < |c| ==> Hex.IsLowerHexDigit(c[i])
  {
    EncryptUnder(lib, ActiveKey(lib, sessionKey), text)
  }

  /** `decryptWithSessionKey(encryptedText)`; errors are not caught here. */
  function SessionDecrypt(lib: Library, sessionKey: Option<Bytes>, encrypted: Option<string>): (r: Result<string, CipherError>)
    requires Sound(lib) && ValidSessionKey(sessionKey)
    ensures encrypted.None? ==> r == Failure(NotAString)
    ensures encrypted.Some? && |encrypted.value| % 2 == 1 ==> r == Failure(OddHexLength)
  {
    DecryptUnder(lib, ActiveKey(lib, sessionKey), encrypted)
  }

  /** Without a shared key both helpers are exactly the static pair. */
  lemma SessionFallback(lib: Library, text: string, encrypted: Option<string>)
    requires Sound(lib)
    ensures SessionEncrypt(lib, None, text) == Encrypt(lib, text)
    ensures SessionDecrypt(lib, None, encrypted) == Decrypt(lib, encrypted)
  {
  }

  /** With the key state held fixed, session decryption undoes session encryption. */
  lemma SessionRoundTrip(lib: Library, sessionKey: Option<Bytes>, text: string)
    requires Sound(lib) && ValidSessionKey(sessionKey)
    ensures SessionDecrypt(lib, sessionKey, Some(SessionEncrypt(lib, sessionKey, text))) == Success(text)
  {
    DecryptEncryptUnder(lib, ActiveKey(lib, sessionKey), text);
  }

  /** The process-wide slots as an object: the two handlers that reassign them are its methods. */
  class KeyExchange {
    var dhInstance: Option<DhInstance>
    var sharedSessionKey: Option<Bytes>

    function State(): KxState
      reads this
    {
      KxState(dhInstance, sharedSessionKey)
    }

    predicate Valid()
      reads this
    {
      ValidKx(State())
    }

    /** Both slots start out `null`. */
    constructor ()
      ensures State() == InitialKxState && Valid()
    {
      dhInstance := None;
      sharedSessionKey := None;
    }

    /** `generateDHKeys()` with the fresh key pair `inst`. */
    method GenerateDHKeys(inst: DhInstance) returns (r: DhPublic)
      requires Valid()
      modifies this
      ensures State() == Init(old(State()), inst) && Valid()
      ensures r == PublicParams(inst)
    {
      dhInstance := Some(inst);
      r := PublicParams(inst);
    }

    /** `computeSharedKey(clientPublicKeyHex)`. */
    method ComputeSharedKey(lib: Library, clientPublicKeyHex: string) returns (r: Result<string, KxError>)
      requires Sound(lib) && Valid()
      modifies this
      ensures (State(), r) == Complete(lib, old(State()), clientPublicKeyHex) && Valid()
    {
      if dhInstance.None? {
        return Failure(NotInitialized);
      }
      var dh := dhInstance.value;
      var secret := lib.dhComputeSecret(dh.prime, dh.generator, dh.privateKey, Hex.Decode(clientPublicKeyHex));
      if secret.None? {
        return Failure(InvalidPeerKey);
      }
      sharedSessionKey := Some(SessionKeyFromSecret(lib, secret.value));
      r := Success(Hex.Encode(sharedSessionKey.value));
    }
  }
}
