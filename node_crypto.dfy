/**
 * The primitives of Node's `crypto` module that the application calls, as
 * functions handed to the model, with the properties the model relies on.
 * AES-256-CBC with PKCS#7 padding (FIPS 197, section 6.2 of NIST SP 800-38A),
 * SHA-256 (FIPS 180-4) and HMAC-SHA256 (RFC 2104) are not implemented here.
 */
module NodeCrypto {
  import opened Wrappers
  import opened Octets
  import Hex

  /** A `crypto` implementation: each field is one primitive, deterministic by construction. */
  datatype Library = Library(
    /** `createHash("sha256").update(m).digest()` */
    sha256: Bytes -> Bytes,
    /** `createHmac("sha256", key).update(m).digest()` */
    hmacSha256: (Bytes, Bytes) -> Bytes,
    /** `createCipheriv("aes-256-cbc", key, iv)`, `update` and `final`, on a 32-byte key and 16-byte IV */
    aesCbcEncrypt: (Bytes, Bytes, Bytes) -> Bytes,
    /** the same for `createDecipheriv`; `None` is the "bad decrypt" or "wrong final block length" error */
    aesCbcDecrypt: (Bytes, Bytes, Bytes) -> Option<Bytes>,
    /** `dh.computeSecret(peer)` for a group (prime, generator) and private key; `None` when `peer` is refused */
    dhComputeSecret: (Bytes, Bytes, Bytes, Bytes) -> Option<Bytes>)

  const KeyLength: nat := 32
  const BlockLength: nat := 16

  /**
   * What the model assumes of the primitives: decryption undoes encryption
   * under the same key and IV, PKCS#7 pads to the next whole block, a
   * ciphertext that is empty or not whole blocks is refused, and both
   * digests are 32 bytes long.
   */
  ghost predicate Sound(lib: Library) {
    (forall k, iv, m :: |k| == KeyLength && |iv| == BlockLength ==>
       lib.aesCbcDecrypt(k, iv, lib.aesCbcEncrypt(k, iv, m)) == Some(m))
    && (forall k, iv, m :: |lib.aesCbcEncrypt(k, iv, m)| == 16 * (|m| / 16 + 1))
    && (forall k, iv, c :: (|c| == 0 || |c| % 16 != 0) ==> lib.aesCbcDecrypt(k, iv, c) == None)
    && (forall m :: |lib.sha256(m)| == 32)
    && (forall k, m :: |lib.hmacSha256(k, m)| == 32)
  }

  /** "hex" input to `update`: a string of odd length is refused, otherwise Node's lenient hex decoding. */
  function HexInput(s: string): (r: Result<Bytes, CipherError>)
    ensures r.Failure? <==> |s| % 2 == 1
    ensures r.Success? ==> r.value == Hex.Decode(s)
  {
    if |s| % 2 == 1 then Failure(OddHexLength) else Success(Hex.Decode(s))
  }

  /** The hex of any bytes is accepted and read back as those bytes. */
  lemma HexInputEncode(b: Bytes)
    ensures HexInput(Hex.Encode(b)) == Success(b)
  {
    Hex.DecodeEncode(b);
  }

  /** Why a cipher call throws. */
  datatype CipherError =
    | InvalidKeyLength        // createCipheriv / createDecipheriv: "Invalid key length"
    | InvalidIv               // "Invalid initialization vector"
    | NotAString              // update(undefined): the "data" argument must be a string
    | OddHexLength            // update(s, "hex") with an odd-length s is refused
    | BadDecrypt              // final(): padding or block length wrong

  /** `createCipheriv("aes-256-cbc", key, iv)` followed by `update(m)` and `final()`. */
  function Cipher(lib: Library, key: Bytes, iv: Bytes, m: Bytes): (r: Result<Bytes, CipherError>)
    requires Sound(lib)
    ensures r.Success? <==> |key| == KeyLength && |iv| == BlockLength
    ensures r.Success? ==> |r.value| == 16 * (|m| / 16 + 1)
  {
    if |key| != KeyLength then Failure(InvalidKeyLength)
    else if |iv| != BlockLength then Failure(InvalidIv)
    else Success(lib.aesCbcEncrypt(key, iv, m))
  }

  /** `createDecipheriv("aes-256-cbc", key, iv)` followed by `update(c)` and `final()`. */
  function Decipher(lib: Library, key: Bytes, iv: Bytes, c: Bytes): (r: Result<Bytes, CipherError>)
    requires Sound(lib)
    ensures r.Success? ==> |key| == KeyLength && |iv| == BlockLength
    ensures (|c| == 0 || |c| % 16 != 0) ==> r.Failure?
  {
    if |key| != KeyLength then Failure(InvalidKeyLength)
    else if |iv| != BlockLength then Failure(InvalidIv)
    else match lib.aesCbcDecrypt(key, iv, c)
      case None => Failure(BadDecrypt)
      case Some(m) => Success(m)
  }

  /** Deciphering what was ciphered under the same key and IV gives the plaintext back. */
  lemma DecipherCipher(lib: Library, key: Bytes, iv: Bytes, m: Bytes)
    requires Sound(lib)
    requires Cipher(lib, key, iv, m).Success?
    ensures Decipher(lib, key, iv, Cipher(lib, key, iv, m).value) == Success(m)
  {
  }
}
