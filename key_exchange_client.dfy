/**
 * The browser side of the key exchange in `js/keyExchange.js`: the two byte
 * loops between a "binary string" (one character per byte) and a
 * `Uint8Array`, and `startKeyExchange`, whose every failure is caught and
 * logged. The WebCrypto ECDH calls and `fetch` are inputs to the model.
 */
module KeyExchangeClient {
  import opened Wrappers
  import opened Octets
  import Base64

  /** `String.fromCharCode(b)` for each byte, in order. */
  function BinaryString(b: Bytes): (s: string)
    ensures |s| == |b| && forall i :: 0 <= i < |b| ==> s[i] as int == b[i]
  {
    if b == [] then [] else [b[0] as char] + BinaryString(b[1..])
  }

  /** Reading back the char codes of a binary string gives the bytes again, and the other way round. */
  lemma {:induction false} BinaryStringCodes(b: Bytes)
    ensures Base64.CharCodes(BinaryString(b)) == b
    decreases |b|
  {
    if b != [] {
      BinaryStringCodes(b[1..]);
      assert BinaryString(b)[1..] == BinaryString(b[1..]);
    }
  }

  lemma {:induction false} CodesBinaryString(s: string)
    requires forall i :: 0 <= i < |s| ==> s[i] as int < 256
    ensures BinaryString(Base64.CharCodes(s)) == s
    decreases |s|
  {
    if s != [] {
      CodesBinaryString(s[1..]);
      assert Base64.CharCodes(s)[1..] == Base64.CharCodes(s[1..]);
    }
  }

  /** `window.atob(s)`: the forgiving-base64 decode as a binary string; `None` is the error it throws. */
  function Atob(s: string): (r: Option<string>)
    ensures r.Some? <==> Base64.ForgivingDecode(s).Some?
    ensures r.Some? ==> r.value == BinaryString(Base64.ForgivingDecode(s).value)
  {
    match Base64.ForgivingDecode(s)
    case None => None
    case Some(b) => Some(BinaryString(b))
  }

  /** `base64ToArrayBuffer(base64)`: `atob`, then the byte loop. */
  method Base64ToArrayBuffer(base64: string) returns (r: Option<array<Byte>>)
    ensures r.Some? <==> Base64.ForgivingDecode(base64).Some?
    ensures r.Some? ==> fresh(r.value) && r.value[..] == Base64.ForgivingDecode(base64).value
  {
    var binary := Atob(base64);
    if binary.None? {
      return None;
    }
    var bytes := CharCodeBytes(binary.value);
    CodesOfBinary(binary.value, Base64.ForgivingDecode(base64).value, bytes[..]);
    r := Some(bytes);
  }

  /** Keeping the low eight bits of each char code of a binary string gives its bytes. */
  lemma CodesOfBinary(binary: string, decoded: Bytes, codes: seq<Byte>)
    requires binary == BinaryString(decoded) && |codes| == |binary|
    requires forall j :: 0 <= j < |binary| ==> codes[j] == (binary[j] as int) % 256
    ensures codes == decoded
  {
    forall j | 0 <= j < |decoded|
      ensures codes[j] == decoded[j]
    {
      assert binary[j] as int == decoded[j];
    }
  }

  /**
   * The index loop of `base64ToArrayBuffer`: each char code is stored into a
   * `Uint8Array` of the string's length, which keeps its low eight bits (`ToUint8`).
   */
  method CharCodeBytes(binary: string) returns (bytes: array<Byte>)
    ensures fresh(bytes) && bytes.Length == |binary|
    ensures forall j :: 0 <= j < |binary| ==> bytes[j] == (binary[j] as int) % 256
  {
    bytes := new Byte[|binary|];
    for i := 0 to |binary|
      invariant forall j :: 0 <= j < i ==> bytes[j] == (binary[j] as int) % 256
    {
      bytes[i] := (binary[i] as int) % 256;
    }
  }

  /**
   * `arrayBufferToBase64(buffer)`: the loop appends one character per byte,
   * then `btoa`, which cannot throw on such a string.
   */
  method ArrayBufferToBase64(bytes: array<Byte>) returns (r: string)
    ensures r == Base64.Encode(bytes[..])
  {
    var binary := "";
    for i := 0 to bytes.Length
      invariant binary == BinaryString(bytes[..i])
    {
      assert bytes[..i + 1] == bytes[..i] + [bytes[i]];
      BinaryStringAppend(bytes[..i], bytes[i]);
      binary := binary + [bytes[i] as char];
    }
    assert bytes[..bytes.Length] == bytes[..];
    BinaryStringCodes(bytes[..]);
    r := Base64.Btoa(binary).value;
  }

  lemma {:induction false} BinaryStringAppend(b: Bytes, x: Byte)
    ensures BinaryString(b + [x]) == BinaryString(b) + [x as char]
    decreases |b|
  {
    if b != [] {
      assert (b + [x])[1..] == b[1..] + [x];
      BinaryStringAppend(b[1..], x);
    }
  }

  /**
   * The two helpers are inverse: the Base64 that `arrayBufferToBase64` writes
   * for any bytes is read back by `base64ToArrayBuffer` as those bytes.
   */
  lemma BufferRoundTrip(b: Bytes)
    ensures Base64.ForgivingDecode(Base64.Btoa(BinaryString(b)).value) == Some(b)
    ensures Atob(Base64.Btoa(BinaryString(b)).value) == Some(BinaryString(b))
  {
    BinaryStringCodes(b);
    Base64.ForgivingDecodeEncode(b);
  }

  // ---------------------------------------------------------------- startKeyExchange

  /** The JSON of `GET /api/key-exchange/init` as the client reads it. */
  datatype InitReply = InitReply(success: bool, serverPublicKey: Option<string>)

  /** The error the `catch` receives, by the step that threw it. */
  datatype Caught =
    | InitError(message: string)      // `fetch` or `res.json()` of the init call
    | InitRefused                     // `throw new Error("Failed to get server public key")`
    | GenerateError(message: string)  // `generateKey`
    | AtobError                       // `atob` inside `base64ToArrayBuffer`
    | ImportError                     // `importKey` refuses the bytes
    | ExportError(message: string)    // `exportKey`
    | PostError(message: string)      // the final `fetch`

  /** One run: the client key it posted, if it got that far, and the error it caught, if any. */
  datatype Run = Run(posted: Option<string>, caught: Option<Caught>)

  /** How the returned promise settles; with every error caught it resolves (with `undefined`). */
  datatype Settled = Resolved(run: Run) | Rejected(error: Caught)

  /**
   * `startKeyExchange()`, its awaited calls taken in source order: `init` is
   * the parsed init reply or the error of `fetch`/`json`; `generateError`
   * the error of `generateKey`, if any; `importKey` whether the browser
   * accepts the server key's bytes; `exported` the raw client public key or
   * the error of `exportKey`; `postError` the error of the final `fetch`. An
   * undefined `serverPublicKey` reaches `atob` as the text "undefined".
   */
  function StartKeyExchange(init: Result<InitReply, string>, generateError: Option<string>, importKey: Bytes -> bool,
                            exported: Result<Bytes, string>, postError: Option<string>): (r: Settled)
    ensures r.Resolved?
    ensures init.Failure? ==> r.run == Run(None, Some(InitError(init.error)))
    ensures init.Success? && !init.value.success ==> r.run == Run(None, Some(InitRefused))
    ensures r.run.posted.Some? <==>
              && init.Success? && init.value.success && generateError.None?
              && var key := Base64.ForgivingDecode(ServerKeyText(init.value));
                 key.Some? && importKey(key.value) && exported.Success?
    ensures r.run.posted.Some? ==>
              && r.run.posted.value == Base64.Encode(exported.value)
              && r.run.caught == (if postError.Some? then Some(PostError(postError.value)) else None)
  {
    match init
    case Failure(e) => Resolved(Run(None, Some(InitError(e))))
    case Success(data) =>
      if !data.success then Resolved(Run(None, Some(InitRefused)))
      else if generateError.Some? then Resolved(Run(None, Some(GenerateError(generateError.value))))
      else match Base64.ForgivingDecode(ServerKeyText(data))
        case None => Resolved(Run(None, Some(AtobError)))
        case Some(serverBytes) =>
          if !importKey(serverBytes) then Resolved(Run(None, Some(ImportError)))
          else match exported
            case Failure(e) => Resolved(Run(None, Some(ExportError(e))))
            case Success(raw) =>
              BinaryStringCodes(raw);
              var sent := Base64.Btoa(BinaryString(raw)).value;
              Resolved(Run(Some(sent), if postError.Some? then Some(PostError(postError.value)) else None))
  }

  /** What `atob` receives for `data.serverPublicKey`: an absent field converts to "undefined". */
  function ServerKeyText(data: InitReply): string {
    if data.serverPublicKey.Some? then data.serverPublicKey.value else "undefined"
  }

  /** A reply without `serverPublicKey` always fails in `atob`: "undefined" has nine letters, one past a multiple of four. */
  lemma MissingServerKeyFails(generateError: Option<string>, importKey: Bytes -> bool, exported: Result<Bytes, string>,
                              postError: Option<string>)
    ensures var r := StartKeyExchange(Success(InitReply(true, None)), generateError, importKey, exported, postError);
            r.run.posted.None? && (generateError.None? ==> r.run.caught == Some(AtobError))
  {
    Base64.ForgivingDecodeRefuses(ServerKeyText(InitReply(true, None)));
  }
}
