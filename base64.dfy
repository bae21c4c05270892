/** Base64 as used by the envelope: the browser's `btoa` (standard alphabet and
    `=` padding, section 4 of RFC 4648), the browser's `atob` (the WHATWG
    "forgiving-base64 decode"), and the padding-free URL-safe form of section 5
    of RFC 4648 that `base64urlEncode` derives from `btoa`. */
module Base64 {
  import opened Basics
  import opened Bytes
  import opened JsText

  type sextet = x: int | 0 <= x < 64

  predicate IsStdChar(c: char) {
    ('A' <= c <= 'Z') || ('a' <= c <= 'z') || ('0' <= c <= '9') || c == '+' || c == '/'
  }

  /** The characters of a base64url segment: `A-Z a-z 0-9 - _`. */
  predicate IsUrlChar(c: char) {
    ('A' <= c <= 'Z') || ('a' <= c <= 'z') || ('0' <= c <= '9') || c == '-' || c == '_'
  }

  predicate AllStd(s: string) { forall i :: 0 <= i < |s| ==> IsStdChar(s[i]) }

  predicate AllUrl(s: string) { forall i :: 0 <= i < |s| ==> IsUrlChar(s[i]) }

  /** The value-to-character table of the standard alphabet. */
  function StdChar(v: sextet): (c: char)
    ensures IsStdChar(c) && StdValue(c) == v
  {
    if v < 26 then ('A' as int + v) as char
    else if v < 52 then ('a' as int + v - 26) as char
    else if v < 62 then ('0' as int + v - 52) as char
    else if v == 62 then '+' else '/'
  }

  function StdValue(c: char): sextet
    requires IsStdChar(c)
  {
    if 'A' <= c <= 'Z' then c as int - 'A' as int
    else if 'a' <= c <= 'z' then c as int - 'a' as int + 26
    else if '0' <= c <= '9' then c as int - '0' as int + 52
    else if c == '+' then 62 else 63
  }

  /** Three bytes as four characters. */
  function Quad(b0: byte, b1: byte, b2: byte): string {
    [StdChar(b0 / 4), StdChar((b0 % 4) * 16 + b1 / 16), StdChar((b1 % 16) * 4 + b2 / 64), StdChar(b2 % 64)]
  }

  /** A final group of two bytes as three characters (the padding comes separately). */
  function Tri(b0: byte, b1: byte): string {
    [StdChar(b0 / 4), StdChar((b0 % 4) * 16 + b1 / 16), StdChar((b1 % 16) * 4)]
  }

  /** A final single byte as two characters. */
  function Duo(b0: byte): string {
    [StdChar(b0 / 4), StdChar((b0 % 4) * 16)]
  }

  /** The data characters of the standard encoding, without `=` padding. */
  function EncodeData(b: seq<byte>): (s: string)
    ensures AllStd(s)
    decreases |b|
  {
    if |b| >= 3 then Quad(b[0], b[1], b[2]) + EncodeData(b[3..])
    else if |b| == 2 then Tri(b[0], b[1])
    else if |b| == 1 then Duo(b[0])
    else []
  }

  /** How many characters the last, incomplete group of `n` bytes takes. */
  function TailChars(n: nat): nat {
    if n % 3 == 0 then 0 else if n % 3 == 1 then 2 else 3
  }

  function Padding(n: nat): string {
    if n % 3 == 1 then "==" else if n % 3 == 2 then "=" else ""
  }

  /** The standard, padded encoding: four characters per started group of
      three bytes, so its length is always a multiple of four. */
  function StdEncode(b: seq<byte>): (s: string)
    ensures |s| == 4 * ((|b| + 2) / 3)
    ensures |s| % 4 == 0
  {
    var n := |b|;
    EncodedLength(b);
    PaddedGroups(n);
    GroupRemainder((n + 2) / 3, 0);
    EncodeData(b) + Padding(n)
  }

  /** `btoa(s)`: throws (here `None`) on a character above U+00FF. */
  function Btoa(s: string): (r: Option<string>)
    ensures r.Some? <==> IsBinaryString(s)
  {
    if IsBinaryString(s) then Some(StdEncode(BinaryToBytes(s))) else None
  }

  /** ASCII whitespace as the forgiving decoder strips it (no vertical tab). */
  predicate IsAsciiWhitespace(c: char) {
    c == '\t' || c == '\n' || c == '\U{000C}' || c == '\r' || c == ' '
  }

  function RemoveAsciiWhitespace(s: string): (r: string)
    ensures forall i :: 0 <= i < |r| ==> !IsAsciiWhitespace(r[i])
  {
    if s == [] then []
    else (if IsAsciiWhitespace(s[0]) then [] else [s[0]]) + RemoveAsciiWhitespace(s[1..])
  }

  lemma {:induction false} RemoveAsciiWhitespaceOfNone(s: string)
    requires forall i :: 0 <= i < |s| ==> !IsAsciiWhitespace(s[i])
    ensures RemoveAsciiWhitespace(s) == s
  {
    if s != [] {
      RemoveAsciiWhitespaceOfNone(s[1..]);
    }
  }

  /** One group of four, three or two characters as three, two or one bytes;
      the bits left over in a short group are dropped. */
  function DecodeGroup(g: string): (b: seq<byte>)
    requires AllStd(g) && 2 <= |g| <= 4
    ensures |b| == |g| - 1
  {
    var v0, v1 := StdValue(g[0]), StdValue(g[1]);
    if |g| == 2 then [v0 * 4 + v1 / 16]
    else
      var v2 := StdValue(g[2]);
      if |g| == 3 then [v0 * 4 + v1 / 16, (v1 % 16) * 16 + v2 / 4]
      else [v0 * 4 + v1 / 16, (v1 % 16) * 16 + v2 / 4, (v2 % 4) * 64 + StdValue(g[3])]
  }

  /** The bytes of characters of the standard alphabet, group by group: three
      per full group, one fewer than the characters of a final short group,
      and nothing for a single leftover character. */
  function DecodeData(s: string): (b: seq<byte>)
    requires AllStd(s)
    ensures |b| == 3 * (|s| / 4) + (if |s| % 4 <= 1 then 0 else |s| % 4 - 1)
    decreases |s|
  {
    if |s| >= 4 then DecodeGroup(s[..4]) + DecodeData(s[4..])
    else if |s| >= 2 then DecodeGroup(s)
    else []
  }

  /** Drops one or two final `=` when the length is a multiple of four. */
  function DropPadding(t: string): (u: string)
    ensures |u| <= |t| && u == t[..|u|]
  {
    if |t| % 4 == 0 && |t| >= 2 && t[|t| - 1] == '=' && t[|t| - 2] == '=' then t[..|t| - 2]
    else if |t| % 4 == 0 && |t| >= 1 && t[|t| - 1] == '=' then t[..|t| - 1]
    else t
  }

  /** Forgiving-base64 decode: after whitespace and final padding are
      removed, fails on a remainder of one character or on any character
      outside the standard alphabet, and otherwise yields three bytes per
      four characters and one fewer than the characters of a short group. */
  function ForgivingDecode(s: string): (r: Option<seq<byte>>)
    ensures var u := DropPadding(RemoveAsciiWhitespace(s));
      r.None? <==> |u| % 4 == 1 || !AllStd(u)
    ensures var u := DropPadding(RemoveAsciiWhitespace(s));
      r.Some? ==> |r.value| == 3 * (|u| / 4) + (if |u| % 4 == 0 then 0 else |u| % 4 - 1)
  {
    var u := DropPadding(RemoveAsciiWhitespace(s));
    if |u| % 4 == 1 || !AllStd(u) then None else Some(DecodeData(u))
  }

  /** `atob(s)`: the decoded bytes as a binary string, or an exception (`None`). */
  function Atob(s: string): (r: Option<string>)
    ensures r.Some? ==> IsBinaryString(r.value)
    ensures r.Some? <==> ForgivingDecode(s).Some?
    ensures r.Some? ==> BinaryToBytes(r.value) == ForgivingDecode(s).value
  {
    match ForgivingDecode(s)
    case None => None
    case Some(b) => Some(BytesToBinary(b))
  }

  lemma Byte0(b0: byte, b1: byte)
    ensures (b0 / 4) * 4 + ((b0 % 4) * 16 + b1 / 16) / 16 == b0
  {
  }

  lemma Byte1(b1: byte, b2: byte, r: int)
    requires 0 <= r < 4
    ensures ((r * 16 + b1 / 16) % 16) * 16 + ((b1 % 16) * 4 + b2 / 64) / 4 == b1
  {
  }

  lemma Byte2(b1: byte, b2: byte)
    ensures (((b1 % 16) * 4 + b2 / 64) % 4) * 64 + b2 % 64 == b2
  {
  }

  lemma QuadRoundTrip(b0: byte, b1: byte, b2: byte)
    ensures DecodeGroup(Quad(b0, b1, b2)) == [b0, b1, b2]
  {
    var v0, v1, v2, v3 := b0 / 4, (b0 % 4) * 16 + b1 / 16, (b1 % 16) * 4 + b2 / 64, b2 % 64;
    var q := Quad(b0, b1, b2);
    assert q == [StdChar(v0), StdChar(v1), StdChar(v2), StdChar(v3)];
    assert StdValue(q[0]) == v0 && StdValue(q[1]) == v1 && StdValue(q[2]) == v2 && StdValue(q[3]) == v3;
    Byte0(b0, b1);
    Byte1(b1, b2, b0 % 4);
    Byte2(b1, b2);
  }

  lemma TriRoundTrip(b0: byte, b1: byte)
    ensures DecodeGroup(Tri(b0, b1)) == [b0, b1]
  {
    var v0, v1, v2 := b0 / 4, (b0 % 4) * 16 + b1 / 16, (b1 % 16) * 4;
    var q := Tri(b0, b1);
    assert StdValue(q[0]) == v0 && StdValue(q[1]) == v1 && StdValue(q[2]) == v2;
    Byte0(b0, b1);
    Byte1(b1, 0, b0 % 4);
  }

  lemma DuoRoundTrip(b0: byte)
    ensures DecodeGroup(Duo(b0)) == [b0]
  {
    var q := Duo(b0);
    assert StdValue(q[0]) == b0 / 4 && StdValue(q[1]) == (b0 % 4) * 16;
    Byte0(b0, 0);
  }

  lemma {:induction false} DataRoundTrip(b: seq<byte>)
    ensures DecodeData(EncodeData(b)) == b
    decreases |b|
  {
    var s := EncodeData(b);
    if |b| >= 3 {
      var q := Quad(b[0], b[1], b[2]);
      var rest := EncodeData(b[3..]);
      assert s == q + rest;
      assert s[4..] == rest;
      assert s[..4] == q;
      DataRoundTrip(b[3..]);
      QuadRoundTrip(b[0], b[1], b[2]);
      assert b == [b[0], b[1], b[2]] + b[3..];
    } else if |b| == 2 {
      TriRoundTrip(b[0], b[1]);
      assert b == [b[0], b[1]];
    } else if |b| == 1 {
      DuoRoundTrip(b[0]);
      assert b == [b[0]];
    }
  }

  /** n bytes give 4*floor(n/3) characters plus 0, 2 or 3 for n mod 3 = 0, 1, 2. */
  lemma {:induction false} EncodedLength(b: seq<byte>)
    ensures |EncodeData(b)| == 4 * (|b| / 3) + TailChars(|b|)
    decreases |b|
  {
    if |b| >= 3 {
      EncodedLength(b[3..]);
      GroupStep(|b|);
    }
  }

  lemma GroupStep(n: nat)
    requires n >= 3
    ensures (n - 3) / 3 == n / 3 - 1 && TailChars(n - 3) == TailChars(n)
  {
  }

  lemma DataLength(b: seq<byte>)
    ensures |EncodeData(b)| % 4 != 1
    ensures |EncodeData(b)| % 4 == 0 <==> |b| % 3 == 0
  {
    EncodedLength(b);
    PaddingFitsData(|b|, |EncodeData(b)|);
  }

  lemma PaddedGroups(n: nat)
    ensures 4 * (n / 3) + TailChars(n) + |Padding(n)| == 4 * ((n + 2) / 3)
  {
  }

  /** `atob` inverts `btoa`'s encoding: the padded standard encoding of any
      bytes, including the empty buffer and zero bytes, decodes to those bytes. */
  lemma StdRoundTrip(b: seq<byte>)
    ensures ForgivingDecode(StdEncode(b)) == Some(b)
  {
    var d := EncodeData(b);
    var pad := Padding(|b|);
    var t := d + pad;
    assert forall i :: 0 <= i < |t| ==> t[i] == '=' || IsStdChar(t[i]);
    RemoveAsciiWhitespaceOfNone(t);
    DropPaddingOfPadded(b);
    DataLength(b);
    DecodeOf(t, d);
    DataRoundTrip(b);
  }

  /** Once whitespace and padding are gone, a well-formed remainder decodes. */
  lemma DecodeOf(s: string, d: string)
    requires DropPadding(RemoveAsciiWhitespace(s)) == d
    requires AllStd(d) && |d| % 4 != 1
    ensures ForgivingDecode(s) == Some(DecodeData(d))
  {
  }

  lemma GroupRemainder(k: nat, t: nat)
    requires t < 4
    ensures (4 * k + t) % 4 == t
  {
  }

  /** The padding `btoa` appends is exactly what the forgiving decoder drops. */
  lemma DropPaddingOfPadded(b: seq<byte>)
    ensures DropPadding(EncodeData(b) + Padding(|b|)) == EncodeData(b)
  {
    var d := EncodeData(b);
    EncodedLength(b);
    PaddingFitsData(|b|, |d|);
    DropPaddingOf(d, Padding(|b|));
  }

  lemma PaddingFitsData(n: nat, len: nat)
    requires len == 4 * (n / 3) + TailChars(n)
    ensures (Padding(n) == "" && len % 4 == 0) || (Padding(n) == "=" && len % 4 == 3)
      || (Padding(n) == "==" && len % 4 == 2)
  {
    GroupRemainder(n / 3, TailChars(n));
  }

  lemma DropPaddingOf(d: string, pad: string)
    requires AllStd(d)
    requires (pad == "" && |d| % 4 == 0) || (pad == "=" && |d| % 4 == 3) || (pad == "==" && |d| % 4 == 2)
    ensures DropPadding(d + pad) == d
  {
    var t := d + pad;
    if pad == "" {
      assert t == d;
      assert d == [] || IsStdChar(d[|d| - 1]);
    } else if pad == "=" {
      assert t[..|t| - 1] == d;
      assert IsStdChar(t[|t| - 2]);
    } else {
      assert t[..|t| - 2] == d;
    }
  }

  /** `+` to `-` and `/` to `_`. */
  function ToUrl(s: string): string {
    ReplaceAllChar(ReplaceAllChar(s, '+', '-'), '/', '_')
  }

  /** `-` to `+` and `_` to `/`: how a verifier reads a base64url segment back. */
  function FromUrl(s: string): string {
    ReplaceAllChar(ReplaceAllChar(s, '-', '+'), '_', '/')
  }

  /** The unpadded URL-safe encoding of section 5 of RFC 4648: the standard
      data characters with `+` and `/` replaced by `-` and `_`. */
  function Base64UrlEncode(b: seq<byte>): (s: string)
    ensures AllUrl(s)
  {
    ToUrl(EncodeData(b))
  }

  /** Decoding a base64url segment: back to the standard alphabet, then the
      forgiving decoder (which accepts the missing padding). */
  function Base64UrlDecode(s: string): Option<seq<byte>> {
    ForgivingDecode(FromUrl(s))
  }

  /** What `base64urlEncode` computes with `btoa`, the two global replaces and
      the removal of the trailing `=` run is exactly the unpadded URL-safe
      encoding. */
  lemma BtoaUrlSafe(b: seq<byte>)
    ensures StripTrailing(ToUrl(Btoa(BytesToBinary(b)).value), '=') == Base64UrlEncode(b)
  {
    var d, pad := EncodeData(b), Padding(|b|);
    assert Btoa(BytesToBinary(b)).value == d + pad by {
      assert BinaryToBytes(BytesToBinary(b)) == b;
    }
    ToUrlOfPadded(d, pad);
    StripPadding(ToUrl(d), pad);
  }

  lemma ToUrlOfPadded(d: string, pad: string)
    requires forall i :: 0 <= i < |pad| ==> pad[i] == '='
    ensures ToUrl(d + pad) == ToUrl(d) + pad
  {
    var u, w := ToUrl(d + pad), ToUrl(d) + pad;
    assert forall i :: 0 <= i < |u| ==> u[i] == w[i];
  }

  lemma {:induction false} StripPadding(x: string, pad: string)
    requires x == [] || x[|x| - 1] != '='
    requires forall i :: 0 <= i < |pad| ==> pad[i] == '='
    ensures StripTrailing(x + pad, '=') == x
    decreases |pad|
  {
    if pad != [] {
      assert (x + pad)[..|x + pad| - 1] == x + pad[..|pad| - 1];
      StripPadding(x, pad[..|pad| - 1]);
    } else {
      assert x + pad == x;
    }
  }

  /** n bytes give 4*floor(n/3) characters plus 0, 2 or 3 for n mod 3 = 0,
      1, 2, so never 1 modulo 4; the empty buffer encodes to the empty text. */
  lemma UrlLength(b: seq<byte>)
    ensures |Base64UrlEncode(b)| == 4 * (|b| / 3) + TailChars(|b|)
    ensures |Base64UrlEncode(b)| % 4 != 1
    ensures b == [] ==> Base64UrlEncode(b) == ""
  {
    EncodedLength(b);
    DataLength(b);
  }

  /** The substitutions are undone exactly on standard-alphabet text. */
  lemma FromUrlToUrl(d: string)
    requires AllStd(d)
    ensures FromUrl(ToUrl(d)) == d
  {
  }

  /** The unpadded data characters alone already decode to the bytes. */
  lemma UnpaddedRoundTrip(b: seq<byte>)
    ensures ForgivingDecode(EncodeData(b)) == Some(b)
  {
    var d := EncodeData(b);
    RemoveAsciiWhitespaceOfNone(d);
    DataLength(b);
    if |d| % 4 == 0 {
      DropPaddingOf(d, "");
      assert d + "" == d;
    }
    DecodeOf(d, d);
    DataRoundTrip(b);
  }

  /** Decoding a base64url segment gives back exactly the encoded bytes. */
  lemma UrlRoundTrip(b: seq<byte>)
    ensures Base64UrlDecode(Base64UrlEncode(b)) == Some(b)
  {
    FromUrlToUrl(EncodeData(b));
    UnpaddedRoundTrip(b);
  }
}
