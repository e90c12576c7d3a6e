/** `generateSignature`: the canonical string
    `timestamp ++ METHOD ++ /path ++ JSON(body)?`, signed with HMAC-SHA256 and
    written as padded base64. HMAC-SHA256 and `JSON.stringify` are foreign
    code: they enter as function parameters, and the clock as a number. */
module Signature {
  import opened Wrappers
  import opened Text
  import opened Paths
  import opened Json
  import Base64

  const DigestLength := 32

  /** A SHA-256 output: 32 bytes. */
  type Digest = d: seq<Base64.Byte> | |d| == DigestLength witness seq(32, i => 0)

  /** HMAC-SHA256 keyed with the first argument, over the second. */
  type Hmac = (string, string) -> Digest

  /** `JSON.stringify`. */
  type Stringify = Value -> string

  /** The only body the signer is given: a search query. */
  datatype SearchTransactionDto = SearchTransactionDto(query: string)

  function DtoValue(dto: SearchTransactionDto): Value {
    Obj([Field("query", Str(dto.query))])
  }

  datatype SignedRequest = SignedRequest(signature: string, timestamp: string)

  /** The serialised body, or nothing at all for a null body. */
  function BodySegment(body: Option<SearchTransactionDto>, stringify: Stringify): string {
    match body
    case None => ""
    case Some(dto) => stringify(DtoValue(dto))
  }

  /** The canonical string that is signed. */
  function Prehash(timestamp: string, httpMethod: string, path: string,
                   body: Option<SearchTransactionDto>, stringify: Stringify): (p: string)
    ensures StartsWith(p, timestamp)
  {
    timestamp + ToUpper(httpMethod) + NormalizePath(path) + BodySegment(body, stringify)
  }

  /** What the signature looks like: 44 characters, 43 from the base64
      alphabet and one closing '='. */
  predicate IsSignatureText(s: string) {
    |s| == 44 && s[43] == Base64.Pad
    && forall i :: 0 <= i < 43 ==> Base64.IsAlphabetChar(s[i])
  }

  /** The base64 text of a digest has the shape of a signature. */
  lemma EncodedDigestShape(d: Digest)
    ensures IsSignatureText(Base64.Encode(d))
  {
    var s := Base64.Encode(d);
    Base64.EncodePadding(d);
    assert Base64.PadCount(|d|) == 1;
    forall i | 0 <= i < 43 ensures Base64.IsAlphabetChar(s[i]) {
      assert s[i] != Base64.Pad;
    }
  }

  /** What `generateSignature` promises of its result: the timestamp is the
      decimal text of `now` (digits, no leading zero), and the signature is a
      base64 text that decodes to the HMAC of the canonical string that begins
      with that very timestamp. */
  predicate IsSignedAt(r: SignedRequest, apiSecret: string, httpMethod: string, path: string,
                       queryDto: Option<SearchTransactionDto>, now: nat,
                       hmac: Hmac, stringify: Stringify) {
    && |r.timestamp| > 0
    && (forall i :: 0 <= i < |r.timestamp| ==> IsDigit(r.timestamp[i]))
    && (r.timestamp[0] == '0' ==> r.timestamp == "0")
    && DecimalValue(r.timestamp) == now
    && Base64.Decode(r.signature)
       == Some(hmac(apiSecret, Prehash(r.timestamp, httpMethod, path, queryDto, stringify)))
  }

  /** `generateSignature(apiSecret, httpMethod, path, queryDto)` at clock value
      `now` (milliseconds since the epoch). */
  function GenerateSignature(apiSecret: string, httpMethod: string, path: string,
                             queryDto: Option<SearchTransactionDto>, now: nat,
                             hmac: Hmac, stringify: Stringify): (r: SignedRequest)
    ensures IsSignedAt(r, apiSecret, httpMethod, path, queryDto, now, hmac, stringify)
    ensures IsSignatureText(r.signature)
  {
    var timestamp := NatToDecimal(now);
    var digest := hmac(apiSecret, Prehash(timestamp, httpMethod, path, queryDto, stringify));
    DecimalRoundTrip(now);
    Base64.DecodeEncode(digest);
    EncodedDigestShape(digest);
    SignedRequest(Base64.Encode(digest), timestamp)
  }

  /** The promise singles out the result: only one timestamp text and one
      signature text meet it, those `GenerateSignature` returns. */
  lemma SignedAtUnique(r: SignedRequest, apiSecret: string, httpMethod: string, path: string,
                       queryDto: Option<SearchTransactionDto>, now: nat,
                       hmac: Hmac, stringify: Stringify)
    requires IsSignedAt(r, apiSecret, httpMethod, path, queryDto, now, hmac, stringify)
    ensures r == GenerateSignature(apiSecret, httpMethod, path, queryDto, now, hmac, stringify)
  {
    var g := GenerateSignature(apiSecret, httpMethod, path, queryDto, now, hmac, stringify);
    DecimalCanonical(r.timestamp);
    DecimalCanonical(g.timestamp);
    var digest := hmac(apiSecret, Prehash(g.timestamp, httpMethod, path, queryDto, stringify));
    Base64.DecodeUnique(r.signature, digest);
    Base64.DecodeUnique(g.signature, digest);
  }

  /** A null body adds no segment: neither "{}" nor "null" is signed. */
  lemma PrehashNullBody(timestamp: string, httpMethod: string, path: string, stringify: Stringify)
    ensures Prehash(timestamp, httpMethod, path, None, stringify)
            == timestamp + ToUpper(httpMethod) + NormalizePath(path)
  {
  }

  /** Method case and a missing leading '/' do not matter: the same secret,
      clock value and body give the same timestamp and signature. */
  lemma SignatureIgnoresMethodCaseAndLeadingSlash(
    apiSecret: string, m1: string, m2: string, p1: string, p2: string,
    queryDto: Option<SearchTransactionDto>, now: nat, hmac: Hmac, stringify: Stringify)
    requires EqualIgnoringCase(m1, m2)
    requires NormalizePath(p1) == NormalizePath(p2)
    ensures GenerateSignature(apiSecret, m1, p1, queryDto, now, hmac, stringify)
            == GenerateSignature(apiSecret, m2, p2, queryDto, now, hmac, stringify)
  {
    ToUpperCaseInsensitive(m1, m2);
  }

  /** `get` and `GET`, `api/en/time` and `/api/en/time` sign the same string. */
  lemma SameCanonicalStringForTimePath(timestamp: string, stringify: Stringify)
    ensures Prehash(timestamp, "get", "api/en/time", None, stringify)
            == Prehash(timestamp, "GET", "/api/en/time", None, stringify)
            == timestamp + "GET/api/en/time"
  {
    UpperGet();
    NormalizePathLeadingSlash("api/en/time");
    assert "/" + "api/en/time" == "/api/en/time";
    assert "GET" + "/api/en/time" == "GET/api/en/time";
  }

  lemma UpperGet()
    ensures ToUpper("get") == "GET" && ToUpper("GET") == "GET"
  {
    var lower, upper := ToUpper("get"), ToUpper("GET");
    assert lower[0] == 'G' && lower[1] == 'E' && lower[2] == 'T';
    assert upper[0] == 'G' && upper[1] == 'E' && upper[2] == 'T';
  }

  /** Bodies that serialise differently give different canonical strings. */
  lemma PrehashBodySensitive(timestamp: string, httpMethod: string, path: string,
                             b1: SearchTransactionDto, b2: SearchTransactionDto, stringify: Stringify)
    requires stringify(DtoValue(b1)) != stringify(DtoValue(b2))
    ensures Prehash(timestamp, httpMethod, path, Some(b1), stringify)
            != Prehash(timestamp, httpMethod, path, Some(b2), stringify)
  {
    var head := timestamp + ToUpper(httpMethod) + NormalizePath(path);
    var p1, p2 := Prehash(timestamp, httpMethod, path, Some(b1), stringify), Prehash(timestamp, httpMethod, path, Some(b2), stringify);
    assert p1[|head|..] == stringify(DtoValue(b1));
    assert p2[|head|..] == stringify(DtoValue(b2));
  }

  /** Signatures differ whenever the HMAC digests of the two canonical strings
      differ: base64 adds no collisions of its own. */
  lemma SignatureSensitiveToDigest(apiSecret: string, httpMethod: string, path: string,
                                   b1: SearchTransactionDto, b2: SearchTransactionDto, now: nat,
                                   hmac: Hmac, stringify: Stringify)
    requires var ts := NatToDecimal(now);
      hmac(apiSecret, Prehash(ts, httpMethod, path, Some(b1), stringify))
      != hmac(apiSecret, Prehash(ts, httpMethod, path, Some(b2), stringify))
    ensures GenerateSignature(apiSecret, httpMethod, path, Some(b1), now, hmac, stringify).signature
            != GenerateSignature(apiSecret, httpMethod, path, Some(b2), now, hmac, stringify).signature
  {
    var ts := NatToDecimal(now);
    Base64.EncodeInjective(hmac(apiSecret, Prehash(ts, httpMethod, path, Some(b1), stringify)),
                           hmac(apiSecret, Prehash(ts, httpMethod, path, Some(b2), stringify)));
  }
}
