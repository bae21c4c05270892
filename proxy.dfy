/** The local CORS proxy: which upstream URL a request path is sent to, the
    body it forwards and the headers it adds. The HTTP server, the streaming
    of the request body and the upstream call itself are not modelled; the
    JSON parser and serializer are parameters. */
module Proxy {
  import opened Basics
  import opened JsText
  import opened Bytes
  import opened Json

  const AuthPath: string := "/api/auth/authenticate"
  const CareHost: string := "careparrva.com"
  const NseHost: string := "clientprofilinguat.nseindia.com"
  /** `https://careparrva.com/api/parrva/pdc/auth/authenticate` */
  const AuthTarget: string := "https://" + CareHost + "/" + "api/parrva/pdc/auth/authenticate"
  const NsePrefix: string := "/api/nse/"
  /** `https://clientprofilinguat.nseindia.com/api/advice/` */
  const AdviceBase: string := "https://" + NseHost + "/" + "api/advice/"

  /** The upstream input family an advice type is posted to, given the role
      segment of the path (both already lower-cased). */
  function InputType(role: string, adviceType: string): (r: string)
    ensures r == "rainput" || r == "iainput"
    ensures r == "rainput" <==>
      adviceType == "portfolio" || ((adviceType == "intraday" || adviceType == "derivative") && role == "ra")
  {
    if adviceType == "portfolio" then "rainput"
    else if adviceType == "intraday" || adviceType == "derivative" then
      (if role == "ra" then "rainput" else "iainput")
    else if adviceType == "strategy" || adviceType == "singlestock" then "iainput"
    else "iainput"
  }

  /** The upstream URL for a role and advice type. */
  function NseTarget(role: string, adviceType: string): (r: string)
    ensures StartsWith(r, AdviceBase)
  {
    if adviceType == "algoinput" then AdviceBase + "algoinput"
    else AdviceBase + InputType(role, adviceType) + "/" + adviceType
  }

  /** Below the advice base, the algo target has the single segment
      `algoinput`; every other target has the input family and then the
      advice type. */
  lemma NseTargetSegments(role: string, adviceType: string)
    requires '/' !in adviceType
    ensures var r := NseTarget(role, adviceType);
      Split(r[|AdviceBase|..], '/') ==
        if adviceType == "algoinput" then ["algoinput"] else [InputType(role, adviceType), adviceType]
  {
    var r := NseTarget(role, adviceType);
    if adviceType == "algoinput" {
      assert r[|AdviceBase|..] == "algoinput";
    } else {
      var family := InputType(role, adviceType);
      assert r[|AdviceBase|..] == family + "/" + adviceType;
      assert '/' !in family;
      SplitAround(family, adviceType, '/');
    }
  }

  /** Only the role `ra` changes the target. */
  lemma TargetIgnoresOtherRoles(role1: string, role2: string, adviceType: string)
    requires role1 != "ra" && role2 != "ra"
    ensures NseTarget(role1, adviceType) == NseTarget(role2, adviceType)
  {
    assert InputType(role1, adviceType) == InputType(role2, adviceType);
  }

  datatype Route = Upstream(target: string) | NotFound

  /** The role and advice type of an NSE path: its last two `/`-segments,
      lower-cased. */
  function RoleAndType(url: string): (r: (string, string))
    requires '/' in url
    ensures '/' !in r.0 && '/' !in r.1
    ensures forall i :: 0 <= i < |r.0| ==> !IsUpperAscii(r.0[i])
    ensures forall i :: 0 <= i < |r.1| ==> !IsUpperAscii(r.1[i])
  {
    var parts := Split(url, '/');
    SplitHasTwoParts(url, '/');
    (Lower(parts[|parts| - 2]), Lower(parts[|parts| - 1]))
  }

  lemma SplitHasTwoParts(s: string, d: char)
    requires d in s
    ensures |Split(s, d)| >= 2
  {
    var i := FirstIndexOf(s, d);
    assert Split(s, d) == [s[..i]] + Split(s[i + 1..], d);
  }

  /** Where the proxy sends a request path. */
  function Resolve(url: string): (r: Route)
    ensures r.NotFound? <==> url != AuthPath && !StartsWith(url, NsePrefix)
  {
    if url == AuthPath then Upstream(AuthTarget)
    else if StartsWith(url, NsePrefix) then
      assert url[|NsePrefix| - 1] == '/';
      var (role, adviceType) := RoleAndType(url);
      Upstream(NseTarget(role, adviceType))
    else NotFound
  }

  /** The authentication path goes to the careparrva authenticate URL. */
  lemma ResolveAuthenticate()
    ensures Resolve(AuthPath) == Upstream(AuthTarget)
  {
  }

  /** An NSE path `/api/nse/{role}/{adviceType}` is routed on its two
      segments, lower-cased. */
  lemma {:induction false} ResolveNsePath(role: string, adviceType: string)
    requires '/' !in role && '/' !in adviceType
    ensures Resolve(NsePrefix + role + "/" + adviceType) ==
      Upstream(NseTarget(Lower(role), Lower(adviceType)))
  {
    var url := NsePrefix + role + "/" + adviceType;
    assert url[..|NsePrefix|] == NsePrefix;
    assert url != AuthPath by { assert url[5] != AuthPath[5]; }
    assert url == (NsePrefix[..8] + "/" + role) + "/" + adviceType;
    assert NsePrefix[..8] + "/" + role == NsePrefix + role;
    SplitConcat(NsePrefix[..8] + "/" + role, adviceType, '/');
    SplitConcat(NsePrefix[..8], role, '/');
    assert '/' !in role && '/' !in adviceType;
  }

  /** Extra segments before the last two do not matter: only the last two
      segments are read. */
  lemma {:induction false} ResolveLastTwoSegments(middle: string, role: string, adviceType: string)
    requires '/' !in role && '/' !in adviceType
    ensures Resolve(NsePrefix + middle + "/" + role + "/" + adviceType) ==
      Upstream(NseTarget(Lower(role), Lower(adviceType)))
  {
    var url := NsePrefix + middle + "/" + role + "/" + adviceType;
    assert url[..|NsePrefix|] == NsePrefix;
    assert url != AuthPath by { assert url[5] != AuthPath[5]; }
    var front := NsePrefix + middle;
    assert url == (front + "/" + role) + "/" + adviceType;
    SplitConcat(front + "/" + role, adviceType, '/');
    SplitConcat(front, role, '/');
  }

  /** `portfolio` always goes to `rainput`; `intraday` and `derivative` go to
      `rainput` exactly for the `ra` role; everything else, including advice
      types the proxy does not list, goes to `iainput`. */
  lemma InputTypeTable(role: string, adviceType: string)
    ensures adviceType == "portfolio" ==> InputType(role, adviceType) == "rainput"
    ensures adviceType in {"intraday", "derivative"} ==>
      (InputType(role, adviceType) == "rainput" <==> role == "ra")
    ensures adviceType !in {"portfolio", "intraday", "derivative"} ==> InputType(role, adviceType) == "iainput"
  {
  }

  /** Any other path is answered with a 404 and is not forwarded. */
  lemma ResolveOther(url: string)
    requires url != AuthPath && !StartsWith(url, NsePrefix)
    ensures Resolve(url) == NotFound
  {
  }

  /** The request body as `parseBody` yields it: an empty body is `null`, a
      body that parses is the parsed value, and any other text is kept as a
      string. */
  function ParseBody(text: string, parse: string -> Option<Json>): (body: Json)
    ensures text == "" ==> body == JNull
    ensures text != "" && parse(text).None? ==> body == JString(text)
    ensures text != "" && parse(text).Some? ==> body == parse(text).value
  {
    if text == "" then JNull
    else match parse(text)
      case Some(v) => v
      case None => JString(text)
  }

  /** The body string forwarded upstream: empty for a falsy body, the string
      itself for a string, and the serialization of anything else. */
  function StringBody(body: Json, stringify: Json -> string): (s: string)
    ensures Falsy(body) ==> s == ""
    ensures body.JString? ==> s == body.s
    ensures !Falsy(body) && !body.JString? ==> s == stringify(body)
    ensures body.JObject? || body.JArray? ==> s == stringify(body)
  {
    if Falsy(body) then ""
    else if body.JString? then body.s
    else stringify(body)
  }

  /** The body that reaches the upstream: an empty body stays empty, text
      that does not parse is forwarded verbatim, and a parsed object or
      array is forwarded as its re-serialization. */
  lemma ForwardedBody(text: string, parse: string -> Option<Json>, stringify: Json -> string)
    ensures text == "" ==> StringBody(ParseBody(text, parse), stringify) == ""
    ensures text != "" && parse(text).None? ==> StringBody(ParseBody(text, parse), stringify) == text
    ensures parse(text).Some? && text != "" && (parse(text).value.JObject? || parse(text).value.JArray?) ==>
      StringBody(ParseBody(text, parse), stringify) == stringify(parse(text).value)
  {
  }

  datatype HeaderValue = Text(text: string) | Count(n: nat)

  /** The keys the proxy always sends. */
  const FixedHeaderNames: set<string> :=
    {"Host", "User-Agent", "Accept", "Accept-Encoding", "Connection", "Content-Type", "Content-Length"}

  /** The outgoing headers: the caller's `Authorization`, when it sent a
      non-empty one, followed by the fixed headers. */
  function ForwardHeaders(authorization: Option<string>, host: string, body: string): (h: map<string, HeaderValue>)
    ensures "Authorization" in h <==> authorization.Some? && authorization.value != ""
    ensures "Authorization" in h ==> h["Authorization"] == Text(authorization.value)
    ensures h.Keys == FixedHeaderNames + (if "Authorization" in h then {"Authorization"} else {})
    ensures h["Host"] == Text(host)
    ensures h["Content-Length"] == Count(|Utf8Encode(body)|)
  {
    var forwarded: map<string, HeaderValue> :=
      if authorization.Some? && authorization.value != "" then map["Authorization" := Text(authorization.value)]
      else map[];
    forwarded + map[
      "Host" := Text(host),
      "User-Agent" := Text("PostmanRuntime/7.32.3"),
      "Accept" := Text("*/*"),
      "Accept-Encoding" := Text("gzip, deflate, br"),
      "Connection" := Text("keep-alive"),
      "Content-Type" := Text("application/json"),
      "Content-Length" := Count(|Utf8Encode(body)|)]
  }

  /** For an ASCII body the declared length is its number of characters. */
  lemma AsciiContentLength(authorization: Option<string>, host: string, body: string)
    requires IsAscii(body)
    ensures ForwardHeaders(authorization, host, body)["Content-Length"] == Count(|body|)
  {
    Utf8OfAscii(body);
  }

  /** The host name of an `https` URL: the text between the scheme and the
      first `/` after it. */
  function Hostname(url: string): (h: string)
    ensures '/' !in h
  {
    var rest := if StartsWith(url, "https://") then url[8..] else url;
    if '/' in rest then rest[..FirstIndexOf(rest, '/')] else rest
  }

  lemma {:induction false} HostnameOf(host: string, path: string)
    requires '/' !in host
    ensures Hostname("https://" + host + "/" + path) == host
  {
    var url := "https://" + host + "/" + path;
    assert url[..8] == "https://";
    var rest := url[8..];
    assert rest == host + "/" + path;
    assert rest[|host|] == '/';
    assert rest[..|host|] == host;
    FirstIndexOfUnique(rest, '/', |host|);
  }

  /** What the proxy does with one request. */
  datatype Outcome =
    | Forward(target: string, headers: map<string, HeaderValue>, body: string)
    | Reply(status: int, contentType: string, reply: Json)

  const NotFoundReply: Json := JObject(map["error" := JString("Not found")])

  /** The request handler, from the request path, its `Authorization` header
      and its body text to the upstream request or the immediate reply. */
  function Handle(url: string, authorization: Option<string>, bodyText: string,
                  parse: string -> Option<Json>, stringify: Json -> string): (o: Outcome)
    ensures o.Reply? <==> Resolve(url).NotFound?
    ensures o.Reply? ==> o.status == 404 && o.contentType == "application/json" && o.reply == NotFoundReply
    ensures o.Forward? ==>
      o.target == Resolve(url).target &&
      o.body == StringBody(ParseBody(bodyText, parse), stringify) &&
      o.headers == ForwardHeaders(authorization, Hostname(o.target), o.body)
  {
    var body := ParseBody(bodyText, parse);
    match Resolve(url)
    case NotFound => Reply(404, "application/json", NotFoundReply)
    case Upstream(target) =>
      var stringBody := StringBody(body, stringify);
      Forward(target, ForwardHeaders(authorization, Hostname(target), stringBody), stringBody)
  }

  /** Every forwarded request goes to one of the two upstream hosts. */
  lemma ForwardedHosts(url: string)
    requires Resolve(url).Upstream?
    ensures Hostname(Resolve(url).target) in {CareHost, NseHost}
  {
    var target := Resolve(url).target;
    if url == AuthPath {
      HostnameOf(CareHost, "api/parrva/pdc/auth/authenticate");
    } else {
      var rest := target[|AdviceBase|..];
      assert target == AdviceBase + rest;
      assert target == "https://" + NseHost + "/" + ("api/advice/" + rest);
      HostnameOf(NseHost, "api/advice/" + rest);
    }
  }
}
