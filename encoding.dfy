/**
 * `utils/encoding.js`: the id obfuscation used by the encoded-id PDF route,
 * Base64 (section 4 of RFC 4648) of the UTF-8 bytes and back.
 */
module Encoding {
  import Utf8
  import Base64

  /** `Buffer.from(data.toString()).toString("base64")`. */
  function EncodeBase64(data: string): (e: string)
    ensures |e| == 4 * ((|Utf8.Encode(data)| + 2) / 3)
    ensures forall i :: 0 <= i < |e| ==> Base64.InAlphabet(e[i])
  {
    Base64.Encode(Utf8.Encode(data))
  }

  /** `Buffer.from(encodedData, "base64").toString("utf8")`, with Node's lenient decoder. */
  function DecodeBase64(encoded: string): (s: string)
    ensures |s| <= |encoded|
  {
    Utf8.Decode(Base64.NodeDecode(encoded))
  }

  /** Decoding undoes encoding for every string. */
  lemma DecodeEncode(data: string)
    ensures DecodeBase64(EncodeBase64(data)) == data
  {
    Base64.NodeDecodeEncode(Utf8.Encode(data));
    Utf8.DecodeEncode(data);
  }

  /** Encoding is injective, so distinct ids never share an encoded form. */
  lemma EncodeInjective(a: string, b: string)
    ensures EncodeBase64(a) == EncodeBase64(b) <==> a == b
  {
    DecodeEncode(a);
    DecodeEncode(b);
  }

  /** The empty string encodes to the empty string. */
  lemma EncodeEmpty()
    ensures EncodeBase64("") == ""
  {
    Base64.EncodeEmpty();
  }
}
