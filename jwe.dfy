/** The JWE payload envelope: a PEM public key is stripped and base64-decoded,
    a random content key is wrapped with RSA-OAEP-256, the payload is sealed
    with A256GCM, and the five parts are joined into the compact serialization
    of section 7.1 of RFC 7516. The Web Crypto primitives and the random
    source are parameters: only their outputs' lengths are relied on, and only
    where a lemma says so. */
module Jwe {
  import opened Basics
  import opened Bytes
  import opened JsText
  import opened Base64
  import opened Json

  const PemBegin: string := "-----BEGIN PUBLIC KEY-----"
  const PemEnd: string := "-----END PUBLIC KEY-----"

  /** The protected header `{alg: 'RSA-OAEP-256', enc: 'A256GCM'}`. */
  const Header: Json := JObject(map["alg" := JString("RSA-OAEP-256"), "enc" := JString("A256GCM")])

  /** Why `encryptJWE` rejects: `atob` throws on the key body, `importKey`
      refuses the decoded bytes as an RSA `spki` key, or one of the two
      `encrypt` calls rejects. */
  datatype JweError = InvalidBase64 | KeyRejected | EncryptFailed

  type Key256 = k: seq<byte> | |k| == 32 witness seq(32, _ => 0)
  type Iv96 = v: seq<byte> | |v| == 12 witness seq(12, _ => 0)

  /** What the random source supplies to one call: the exported raw content
      encryption key (`generateKey` with length 256) and the 12-byte IV. */
  datatype Entropy = Entropy(cek: Key256, iv: Iv96)

  /** The Web Crypto operations `encryptJWE` calls:
      `importSpki(der)` tells whether `importKey('spki', der, RSA-OAEP/SHA-256)` succeeds,
      `rsaOaep(der, m)` encrypts `m` under that key, and
      `aesGcm(key, iv, aad, m)` is the AES-GCM output (ciphertext then tag);
      each encryption is `None` when the call rejects. */
  datatype WebCrypto = WebCrypto(
    importSpki: seq<byte> -> bool,
    rsaOaep: (seq<byte>, seq<byte>) -> Option<seq<byte>>,
    aesGcm: (seq<byte>, seq<byte>, seq<byte>, seq<byte>) -> Option<seq<byte>>)

  /** AES-GCM with a 128-bit tag: an output is 16 bytes longer than the input. */
  ghost predicate AppendsTag(c: WebCrypto) {
    forall key, iv, aad, m :: c.aesGcm(key, iv, aad, m).Some? ==> |c.aesGcm(key, iv, aad, m).value| == |m| + 16
  }

  // ---------------------------------------------------------------- PEM ---

  /** The text once the first `begin`, then the first `end`, and then every
      `\s` character are gone. */
  function StripBetween(pem: string, begin: string, end: string): (b64: string)
    ensures NoSpaces(b64)
  {
    RemoveSpaces(ReplaceFirst(ReplaceFirst(pem, begin, ""), end, ""))
  }

  /** The key body once the BEGIN and END delimiters and every `\s` character
      are gone. */
  function PemBody(pem: string): (b64: string)
    ensures NoSpaces(b64)
  {
    StripBetween(pem, PemBegin, PemEnd)
  }

  /** What `pemToArrayBuffer` returns: the body's base64 decoded, or the
      exception `atob` throws. Going through the binary string loses
      nothing: the key bytes are the forgiving-base64 decoding of the body,
      and the error is raised exactly when that decoding fails. */
  function DecodePem(pem: string): (r: Result<seq<byte>, JweError>)
    ensures r.Ok? <==> ForgivingDecode(PemBody(pem)).Some?
    ensures r.Ok? ==> r.value == ForgivingDecode(PemBody(pem)).value
    ensures r.Err? ==> r.error == InvalidBase64
  {
    match Atob(PemBody(pem))
    case None => Err(InvalidBase64)
    case Some(binary) => Ok(BinaryToBytes(binary))
  }

  /** `pemToArrayBuffer`: a fresh byte array filled from the decoded binary string. */
  method PemToArrayBuffer(pem: string) returns (r: Result<array<byte>, JweError>)
    ensures r.Ok? <==> DecodePem(pem).Ok?
    ensures r.Ok? ==> fresh(r.value) && r.value[..] == DecodePem(pem).value
    ensures r.Err? ==> r.error == DecodePem(pem).error
  {
    var b64 := PemBody(pem);
    var decoded := Atob(b64);
    if decoded.None? {
      return Err(InvalidBase64);
    }
    var bytes := BinaryToArray(decoded.value);
    return Ok(bytes);
  }

  /** The loop of `pemToArrayBuffer`: a fresh `Uint8Array` of the binary
      string's length, filled with `charCodeAt(i)` at each index. */
  method BinaryToArray(binary: string) returns (bytes: array<byte>)
    requires IsBinaryString(binary)
    ensures fresh(bytes) && bytes[..] == BinaryToBytes(binary)
  {
    bytes := new byte[|binary|];
    for i := 0 to |binary|
      invariant forall j :: 0 <= j < i ==> bytes[j] == binary[j] as int
    {
      bytes[i] := binary[i] as int;
    }
  }

  /** A PEM made of optional leading spaces, the BEGIN line, the standard
      base64 of `b` broken by any `\s` characters, and the END line followed by
      spaces decodes to exactly `b`. */
  lemma PemRoundTrip(lead: string, body: string, trail: string, b: seq<byte>)
    requires AllSpaces(lead)
    requires AllSpaces(trail)
    requires IsWrappedBase64(body)
    requires RemoveSpaces(body) == StdEncode(b)
    ensures DecodePem(lead + PemBegin + body + PemEnd + trail) == Ok(b)
  {
    PemBodyOfArmored(lead, body, trail, b);
    DecodeEncodedBody(lead + PemBegin + body + PemEnd + trail, b);
  }

  lemma PemBodyOfArmored(lead: string, body: string, trail: string, b: seq<byte>)
    requires AllSpaces(lead)
    requires AllSpaces(trail)
    requires IsWrappedBase64(body)
    requires RemoveSpaces(body) == StdEncode(b)
    ensures PemBody(lead + PemBegin + body + PemEnd + trail) == StdEncode(b)
  {
    DelimitersStartWithDash();
    ArmoredBody(lead, PemBegin, body, PemEnd, trail, b);
  }

  /** Between any two delimiters that start with `-`, such a body strips to
      the standard encoding of `b`. */
  lemma ArmoredBody(lead: string, begin: string, body: string, end: string, trail: string, b: seq<byte>)
    requires StartsWithDash(begin) && StartsWithDash(end)
    requires AllSpaces(lead)
    requires AllSpaces(trail)
    requires IsWrappedBase64(body)
    requires RemoveSpaces(body) == StdEncode(b)
    ensures StripBetween(lead + begin + body + end + trail, begin, end) == StdEncode(b)
  {
    NoDashInBody(body);
    StripDelimiters(lead, begin, body, end, trail);
  }

  /** Base64 text of the standard alphabet with `=` padding, broken anywhere
      by `\s` characters. */
  predicate IsWrappedBase64(body: string) {
    forall i :: 0 <= i < |body| ==> IsJsSpace(body[i]) || IsStdChar(body[i]) || body[i] == '='
  }

  predicate StartsWithDash(d: string) {
    |d| > 0 && d[0] == '-'
  }

  lemma NoDashInBody(body: string)
    requires IsWrappedBase64(body)
    ensures forall i :: 0 <= i < |body| ==> body[i] != '-'
  {
  }

  lemma DecodeEncodedBody(pem: string, b: seq<byte>)
    requires PemBody(pem) == StdEncode(b)
    ensures DecodePem(pem) == Ok(b)
  {
    StdRoundTrip(b);
  }

  lemma DelimitersStartWithDash()
    ensures StartsWithDash(PemBegin) && StartsWithDash(PemEnd)
  {
  }

  /** Removing the first `begin` and then the first `end` from
      `lead + begin + body + end + trail`, then all spaces, leaves the body's
      non-space characters, provided neither delimiter's first character
      occurs earlier and the outer parts are spaces. */
  lemma StripDelimiters(lead: string, begin: string, body: string, end: string, trail: string)
    requires |begin| > 0 && |end| > 0
    requires AllSpaces(lead)
    requires AllSpaces(trail)
    requires !IsJsSpace(begin[0]) && !IsJsSpace(end[0])
    requires forall i :: 0 <= i < |body| ==> body[i] != end[0]
    ensures StripBetween(lead + begin + body + end + trail, begin, end) == RemoveSpaces(body)
  {
    RemoveBegin(lead, begin, body, end, trail);
    RemoveEnd(lead, body, end, trail);
    SpacesAround(lead, body, trail);
  }

  lemma RemoveBegin(lead: string, begin: string, body: string, end: string, trail: string)
    requires |begin| > 0 && !IsJsSpace(begin[0])
    requires AllSpaces(lead)
    ensures ReplaceFirst(lead + begin + body + end + trail, begin, "") == lead + body + end + trail
  {
    var rest := body + end + trail;
    assert lead + begin + body + end + trail == lead + begin + rest;
    RemoveFirstAt(lead, begin, rest);
    assert lead + rest == lead + body + end + trail;
  }

  lemma RemoveEnd(lead: string, body: string, end: string, trail: string)
    requires |end| > 0 && !IsJsSpace(end[0])
    requires AllSpaces(lead)
    requires forall i :: 0 <= i < |body| ==> body[i] != end[0]
    ensures ReplaceFirst(lead + body + end + trail, end, "") == lead + body + trail
  {
    var pre := lead + body;
    forall i | 0 <= i < |pre|
      ensures pre[i] != end[0]
    {
      if i < |lead| {
        assert pre[i] == lead[i];
      } else {
        assert pre[i] == body[i - |lead|];
      }
    }
    RemoveFirstAt(pre, end, trail);
  }

  lemma SpacesAround(lead: string, body: string, trail: string)
    requires AllSpaces(lead)
    requires AllSpaces(trail)
    ensures RemoveSpaces(lead + body + trail) == RemoveSpaces(body)
  {
    RemoveSpacesAppend(lead + body, trail);
    RemoveSpacesAppend(lead, body);
    RemoveSpacesOfSpaces(lead);
    RemoveSpacesOfSpaces(trail);
  }

  /** The first occurrence of `p` in `a + p + b`, when `a` cannot start one,
      is the one between them. */
  lemma RemoveFirstAt(a: string, p: string, b: string)
    requires |p| > 0
    requires forall i :: 0 <= i < |a| ==> a[i] != p[0]
    ensures ReplaceFirst(a + p + b, p, "") == a + b
  {
    var s := a + p + b;
    assert s[|a|..|a| + |p|] == p;
    forall i | 0 <= i < |a| ensures s[i] != p[0] {
      assert s[i] == a[i];
    }
    FirstOccurrence(s, p, |a|);
    assert s[..|a|] == a && s[|a| + |p|..] == b;
  }

  /** `isValidPublicKey`: the trimmed text contains both delimiters. Trimming
      is irrelevant: the key is accepted exactly when both delimiters occur
      somewhere in the text. */
  predicate IsValidPublicKey(pem: string): (r: bool)
    ensures r <==> Includes(pem, PemBegin) && Includes(pem, PemEnd)
  {
    IncludesTrim(pem, PemBegin);
    IncludesTrim(pem, PemEnd);
    var trimmed := Trim(pem);
    Includes(trimmed, PemBegin) && Includes(trimmed, PemEnd)
  }

  /** `extractKeyPreview`: `substring(0, 20)`, `...`, `substring(length - 20)`. */
  function ExtractKeyPreview(pem: string): (r: string)
    ensures |r| == 3 + 2 * Min(20, |PemBody(pem)|)
  {
    var b64 := PemBody(pem);
    Substring(b64, 0, 20) + "..." + Substring(b64, |b64| - 20, |b64|)
  }

  /** The preview shows the first and the last 20 characters of the stripped
      body, or the whole body twice when it is shorter than 20. */
  lemma KeyPreviewParts(pem: string)
    ensures var b64 := PemBody(pem);
      if |b64| >= 20 then ExtractKeyPreview(pem) == b64[..20] + "..." + b64[|b64| - 20..]
      else ExtractKeyPreview(pem) == b64 + "..." + b64
  {
    var b64 := PemBody(pem);
    if |b64| < 20 {
      assert b64[0..|b64|] == b64;
    }
  }

  // --------------------------------------------------------- base64url ---

  /** `base64urlEncode`: the bytes are turned into a binary string one
      `String.fromCharCode` at a time, then `btoa` and the URL-safe rewrites. */
  method Base64UrlEncodeBuffer(bytes: seq<byte>) returns (s: string)
    ensures s == Base64UrlEncode(bytes)
  {
    var binary := "";
    for i := 0 to |bytes|
      invariant binary == BytesToBinary(bytes[..i])
    {
      assert BytesToBinary(bytes[..i + 1]) == binary + [bytes[i] as char];
      binary := binary + [bytes[i] as char];
    }
    assert bytes[..|bytes|] == bytes;
    var standard := Btoa(binary);
    s := StripTrailing(ReplaceAllChar(ReplaceAllChar(standard.value, '+', '-'), '/', '_'), '=');
    BtoaUrlSafe(bytes);
  }

  // -------------------------------------------------------- encryptJWE ---

  /** The first segment: the base64url of the UTF-8 bytes of the header's
      JSON text. */
  function EncodedHeader(stringify: Json -> string): (h: string)
    ensures AllUrl(h)
    ensures Base64UrlDecode(h) == Some(Utf8Encode(stringify(Header)))
  {
    UrlRoundTrip(Utf8Encode(stringify(Header)));
    Base64UrlEncode(Utf8Encode(stringify(Header)))
  }

  /** `slice(0, n - 16)` and `slice(n - 16)` of the AES-GCM output. */
  function SplitTag(sealed: seq<byte>): (r: (seq<byte>, seq<byte>))
    ensures r.0 + r.1 == sealed
    ensures |sealed| >= 16 ==> r.0 == sealed[..|sealed| - 16] && r.1 == sealed[|sealed| - 16..]
  {
    var n := |sealed|;
    (Slice(sealed, 0, n - 16), Slice(sealed, n - 16, n))
  }

  /** The AES-GCM call: the additional data is `TextEncoder` applied to the
      encoded header. With a 16-byte tag, a successful output is the
      payload's UTF-8 length plus 16. */
  function Sealed(c: WebCrypto, e: Entropy, header: string, payload: string): (r: Option<seq<byte>>)
    ensures AppendsTag(c) && r.Some? ==> |r.value| == |Utf8Encode(payload)| + 16
  {
    var out := c.aesGcm(e.cek, e.iv, Utf8Encode(header), Utf8Encode(payload));
    assert AppendsTag(c) ==> (out.Some? ==> |out.value| == |Utf8Encode(payload)| + 16);
    out
  }

  /** The five segments in order: header, encrypted key, IV, ciphertext, tag,
      from the wrapped key and the AES-GCM output. */
  function Segments(header: string, encryptedKey: seq<byte>, iv: seq<byte>, sealed: seq<byte>): (parts: seq<string>)
    ensures |parts| == 5
  {
    var (ciphertext, tag) := SplitTag(sealed);
    [header,
     Base64UrlEncode(encryptedKey),
     Base64UrlEncode(iv),
     Base64UrlEncode(ciphertext),
     Base64UrlEncode(tag)]
  }

  /** What `encryptJWE(payload, pem)` resolves to, or why it rejects: the
      key is decoded and imported, then the content key is wrapped, then the
      payload is sealed; the first step that fails decides the error. */
  function JweCompact(c: WebCrypto, e: Entropy, stringify: Json -> string, payload: string, pem: string): (r: Result<string, JweError>)
    ensures r.Ok? <==>
      DecodePem(pem).Ok? && c.importSpki(DecodePem(pem).value) &&
      c.rsaOaep(DecodePem(pem).value, e.cek).Some? && Sealed(c, e, EncodedHeader(stringify), payload).Some?
    ensures DecodePem(pem).Err? ==> r == Err(InvalidBase64)
    ensures DecodePem(pem).Ok? && !c.importSpki(DecodePem(pem).value) ==> r == Err(KeyRejected)
    ensures r.Err? && DecodePem(pem).Ok? && c.importSpki(DecodePem(pem).value) ==> r.error == EncryptFailed
  {
    match DecodePem(pem)
    case Err(err) => Err(err)
    case Ok(der) =>
      if !c.importSpki(der) then Err(KeyRejected)
      else match c.rsaOaep(der, e.cek)
        case None => Err(EncryptFailed)
        case Some(encryptedKey) =>
          var header := EncodedHeader(stringify);
          match Sealed(c, e, header, payload)
          case None => Err(EncryptFailed)
          case Some(sealed) => Ok(Join(Segments(header, encryptedKey, e.iv, sealed), '.'))
  }

  /** `encryptJWE`: the same steps, one primitive after the other. */
  method EncryptJwe(c: WebCrypto, e: Entropy, stringify: Json -> string, payload: string, pem: string) returns (r: Result<string, JweError>)
    ensures r == JweCompact(c, e, stringify, payload, pem)
  {
    var cekRaw := e.cek;
    var spki := PemToArrayBuffer(pem);
    if spki.Err? {
      return Err(spki.error);
    }
    var der := spki.value[..];
    if !c.importSpki(der) {
      return Err(KeyRejected);
    }
    var wrapped := c.rsaOaep(der, cekRaw);
    if wrapped.None? {
      return Err(EncryptFailed);
    }
    var encryptedKey := wrapped.value;
    var headerBytes := Utf8Encode(stringify(Header));
    var encodedHeader := Base64UrlEncodeBuffer(headerBytes);
    var iv := e.iv;
    var payloadBytes := Utf8Encode(payload);
    var additionalData := Utf8Encode(encodedHeader);
    var encrypted := c.aesGcm(cekRaw, iv, additionalData, payloadBytes);
    if encrypted.None? {
      return Err(EncryptFailed);
    }
    var encryptedPayload := encrypted.value;
    var n := |encryptedPayload|;
    var ciphertext := Slice(encryptedPayload, 0, n - 16);
    var tag := Slice(encryptedPayload, n - 16, n);
    var keySegment := Base64UrlEncodeBuffer(encryptedKey);
    var ivSegment := Base64UrlEncodeBuffer(iv);
    var ciphertextSegment := Base64UrlEncodeBuffer(ciphertext);
    var tagSegment := Base64UrlEncodeBuffer(tag);
    r := Ok(Join([encodedHeader, keySegment, ivSegment, ciphertextSegment, tagSegment], '.'));
  }

  /** Splitting the token on `.` gives back exactly the five segments: none
      of them contains a `.`, and each is in the URL-safe alphabet. */
  lemma JweSegments(c: WebCrypto, e: Entropy, stringify: Json -> string, payload: string, pem: string)
    requires JweCompact(c, e, stringify, payload, pem).Ok?
    ensures var der := DecodePem(pem).value;
      var parts := Segments(EncodedHeader(stringify), c.rsaOaep(der, e.cek).value, e.iv,
                            Sealed(c, e, EncodedHeader(stringify), payload).value);
      Split(JweCompact(c, e, stringify, payload, pem).value, '.') == parts
      && parts[0] == EncodedHeader(stringify)
      && forall i :: 0 <= i < 5 ==> AllUrl(parts[i]) && '.' !in parts[i]
  {
    var der := DecodePem(pem).value;
    SegmentsSplit(EncodedHeader(stringify), c.rsaOaep(der, e.cek).value, e.iv,
                  Sealed(c, e, EncodedHeader(stringify), payload).value);
  }

  /** Joining the segments with `.` and splitting again gives them back, since
      none of them contains a `.`. */
  lemma SegmentsSplit(header: string, encryptedKey: seq<byte>, iv: seq<byte>, sealed: seq<byte>)
    requires AllUrl(header)
    ensures var parts := Segments(header, encryptedKey, iv, sealed);
      Split(Join(parts, '.'), '.') == parts
      && forall i :: 0 <= i < 5 ==> AllUrl(parts[i]) && '.' !in parts[i]
  {
    var parts := Segments(header, encryptedKey, iv, sealed);
    assert forall i :: 0 <= i < 5 ==> AllUrl(parts[i]) by {
      assert AllUrl(parts[0]) && AllUrl(parts[1]) && AllUrl(parts[2]) && AllUrl(parts[3]) && AllUrl(parts[4]);
    }
    UrlPartsSplit(parts);
  }

  /** base64url segments joined with `.` split back into the same segments. */
  lemma UrlPartsSplit(parts: seq<string>)
    requires |parts| >= 1
    requires forall i :: 0 <= i < |parts| ==> AllUrl(parts[i])
    ensures Split(Join(parts, '.'), '.') == parts
    ensures forall i :: 0 <= i < |parts| ==> '.' !in parts[i]
  {
    forall i | 0 <= i < |parts|
      ensures '.' !in parts[i]
    {
      NoDotInUrl(parts[i]);
    }
    SplitJoin(parts, '.');
  }

  lemma NoDotInUrl(s: string)
    requires AllUrl(s)
    ensures '.' !in s
  {
    forall i | 0 <= i < |s|
      ensures s[i] != '.'
    {
      assert IsUrlChar(s[i]);
    }
  }

  /** Each segment after the header decodes back to the bytes it carries: the
      wrapped key, the IV, and a ciphertext and tag that together are the
      whole AES-GCM output. */
  lemma SegmentsDecode(header: string, encryptedKey: seq<byte>, iv: seq<byte>, sealed: seq<byte>)
    ensures var parts := Segments(header, encryptedKey, iv, sealed);
      Base64UrlDecode(parts[1]) == Some(encryptedKey)
      && Base64UrlDecode(parts[2]) == Some(iv)
      && Base64UrlDecode(parts[3]).Some? && Base64UrlDecode(parts[4]).Some?
      && Base64UrlDecode(parts[3]).value + Base64UrlDecode(parts[4]).value == sealed
  {
    var parts := Segments(header, encryptedKey, iv, sealed);
    var (ciphertext, tag) := SplitTag(sealed);
    assert Base64UrlDecode(parts[1]) == Some(encryptedKey) by {
      UrlRoundTrip(encryptedKey);
    }
    assert Base64UrlDecode(parts[2]) == Some(iv) by {
      UrlRoundTrip(iv);
    }
    assert Base64UrlDecode(parts[3]) == Some(ciphertext) by {
      UrlRoundTrip(ciphertext);
    }
    assert Base64UrlDecode(parts[4]) == Some(tag) by {
      UrlRoundTrip(tag);
    }
  }

  /** Segment lengths in a token: the 12-byte IV gives 16 characters, and
      when AES-GCM appends its 16-byte tag the tag segment has 22 characters
      and the ciphertext segment encodes exactly the payload's UTF-8 length. */
  lemma SegmentLengths(c: WebCrypto, e: Entropy, header: string, payload: string, encryptedKey: seq<byte>)
    requires Sealed(c, e, header, payload).Some?
    ensures var parts := Segments(header, encryptedKey, e.iv, Sealed(c, e, header, payload).value);
      |parts[2]| == 16
    ensures AppendsTag(c) ==>
      var parts := Segments(header, encryptedKey, e.iv, Sealed(c, e, header, payload).value);
      var n := |Utf8Encode(payload)|;
      |parts[4]| == 22 && |parts[3]| == 4 * (n / 3) + TailChars(n)
  {
    var sealed := Sealed(c, e, header, payload).value;
    var (ciphertext, tag) := SplitTag(sealed);
    UrlLength(e.iv);
    assert |Base64UrlEncode(e.iv)| == 4 * 4 + TailChars(12);
    if AppendsTag(c) {
      assert |tag| == 16 && |ciphertext| == |Utf8Encode(payload)|;
      UrlLength(tag);
      assert |Base64UrlEncode(tag)| == 4 * 5 + TailChars(16);
      UrlLength(ciphertext);
    }
  }

  /** The encoded header is ASCII, so the additional data `TextEncoder`
      produces from it is its character codes, one byte each. */
  lemma AdditionalDataIsHeaderAscii(stringify: Json -> string)
    ensures IsAscii(EncodedHeader(stringify))
    ensures Utf8Encode(EncodedHeader(stringify)) == BinaryToBytes(EncodedHeader(stringify))
  {
    UrlIsAscii(EncodedHeader(stringify));
  }

  lemma UrlIsAscii(h: string)
    requires AllUrl(h)
    ensures IsAscii(h) && Utf8Encode(h) == BinaryToBytes(h)
  {
    forall i | 0 <= i < |h|
      ensures h[i] as int < 0x80
    {
      assert IsUrlChar(h[i]);
    }
    Utf8OfAscii(h);
  }

  // ------------------------------------------- prepareEncryptedPayload ---

  datatype PayloadFormat = ArrayFormat | ObjectFormat

  /** `{data: jwe}`, or `[{data: jwe}]` for the array format. Both shapes
      carry the same token: unwrapping gives it back, and the array shape is
      a one-element list. */
  function Wrap(jwe: string, format: PayloadFormat): (r: Json)
    ensures Unwrap(r) == Some(jwe)
    ensures format == ArrayFormat <==> r.JArray?
    ensures format == ArrayFormat ==> |r.items| == 1
  {
    var envelope := JObject(map["data" := JString(jwe)]);
    if format == ArrayFormat then JArray([envelope]) else envelope
  }

  /** Reads the token back out of either shape; the inverse the envelope
      round trip is stated against. */
  function Unwrap(j: Json): Option<string> {
    match j
    case JObject(fields) =>
      if "data" in fields && fields["data"].JString? then Some(fields["data"].s) else None
    case JArray(items) =>
      if |items| == 1 && items[0].JObject? && "data" in items[0].fields && items[0].fields["data"].JString?
      then Some(items[0].fields["data"].s) else None
    case _ => None
  }

  /** `prepareEncryptedPayload(data, pem, format = 'array')`; `JSON.stringify`
      is a parameter. */
  function PrepareEncryptedPayload(c: WebCrypto, e: Entropy, stringify: Json -> string,
                                   data: Json, pem: string, format: PayloadFormat := ArrayFormat)
    : (r: Result<Json, JweError>)
    ensures r.Ok? <==> JweCompact(c, e, stringify, stringify(data), pem).Ok?
    ensures r.Ok? ==> Unwrap(r.value) == Some(JweCompact(c, e, stringify, stringify(data), pem).value)
    ensures r.Ok? ==> (r.value.JArray? <==> format == ArrayFormat)
  {
    match JweCompact(c, e, stringify, stringify(data), pem)
    case Err(err) => Err(err)
    case Ok(jwe) =>
      Ok(Wrap(jwe, format))
  }
}
