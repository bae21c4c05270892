/** The advice submission page: its list of items, the payload it encrypts
    and the proxy path it posts to, and how that path reaches the upstream
    endpoint of the registry. The form field layouts are display data and
    are not modelled. */
module AdvicePage {
  import opened Basics
  import opened JsText
  import opened Json
  import opened Jwe
  import opened AuthStore
  import Proxy
  import Endpoints

  /** The part of an `ADVICE_FORMS` entry the submission logic reads. */
  datatype FormConfig = FormConfig(title: string, isArray: bool)

  /** `ADVICE_FORMS`, keyed by advice type. */
  const AdviceForms: map<string, FormConfig> := map[
    "strategy" := FormConfig("Strategy Advice", true),
    "singlestock" := FormConfig("Single Stock Advice", true),
    "portfolio" := FormConfig("Portfolio Advice", true),
    "intraday" := FormConfig("Intraday Advice", true),
    "derivative" := FormConfig("Derivative Advice", true),
    "algoinput" := FormConfig("Algo Input", true)]

  /** The form for the route parameter: none when it is missing or empty, or
      names no form. A name the form table only inherits (`constructor`,
      `toString`) is a form in JavaScript but gives none here; the page is
      not found either way, since no advice type has such a name. */
  function FormFor(adviceType: Option<string>): (r: Option<FormConfig>)
    ensures r.Some? <==> adviceType.Some? && adviceType.value in AdviceForms
    ensures r.Some? ==> r.value == AdviceForms[adviceType.value]
  {
    if adviceType.Some? && adviceType.value != "" && adviceType.value in AdviceForms
    then Some(AdviceForms[adviceType.value]) else None
  }

  /** The page is shown only when both the form and the advice type exist.
      The forms and the advice types name the same six kinds of advice, so
      the page is found exactly for the ids of the advice-type table. */
  predicate PageFound(adviceType: Option<string>): (r: bool)
    ensures r <==> adviceType.Some? && exists a :: a in AdviceTypes && a.id == adviceType.value
  {
    FormFor(adviceType).Some? &&
    Find(AdviceTypes, (a: AdviceType) => adviceType.Some? && a.id == adviceType.value).Some?
  }

  /** Every advice form is submitted as an array. */
  lemma FormsAreArrays(adviceType: string)
    requires adviceType in AdviceForms
    ensures AdviceForms[adviceType].isArray
  {
  }

  /** A page that is found reads an array form, so it submits the whole
      item list, wrapped in the array format. */
  lemma FoundPageSubmitsList(adviceType: Option<string>, items: seq<Record>)
    requires PageFound(adviceType) && |items| >= 1
    ensures FormFor(adviceType).Some?
    ensures var form := FormFor(adviceType).value;
      FormatOf(form.isArray) == ArrayFormat &&
      Payload(items, form.isArray) == JArray(seq(|items|, i requires 0 <= i < |items| => JObject(items[i])))
  {
    FormsAreArrays(adviceType.value);
  }

  /** The payload handed to the encryption: the whole list for an array
      form, otherwise the first item. */
  function Payload(items: seq<Record>, isArray: bool): (p: Json)
    requires |items| >= 1
    ensures isArray ==> p.JArray? && |p.items| == |items| &&
                        (forall i :: 0 <= i < |items| ==> p.items[i] == JObject(items[i]))
    ensures !isArray ==> p == JObject(items[0])
  {
    if isArray then JArray(seq(|items|, i requires 0 <= i < |items| => JObject(items[i])))
    else JObject(items[0])
  }

  /** The wrapper format matches the payload shape. */
  function FormatOf(isArray: bool): (f: PayloadFormat)
    ensures f == ArrayFormat <==> isArray
  {
    if isArray then ArrayFormat else ObjectFormat
  }

  /** `/api/nse/${role?.toLowerCase()}/${adviceType}`: a missing role is
      written `undefined`. */
  function ProxyPath(role: Option<UserRole>, adviceType: string): (p: string)
    ensures StartsWith(p, Proxy.NsePrefix)
    ensures |p| >= |adviceType| && p[|p| - |adviceType|..] == adviceType
  {
    var roleSegment := if role.Some? then Lower(RoleName(role.value)) else "undefined";
    Proxy.NsePrefix + roleSegment + "/" + adviceType
  }

  /** `Bearer ${token}`: a missing token is written `null`. */
  function AuthorizationHeader(token: Option<string>): (h: string)
    ensures |h| > 0
  {
    "Bearer " + (if token.Some? then token.value else "null")
  }

  /** The proxy always forwards the page's `Authorization` header. */
  lemma AuthorizationForwarded(token: Option<string>, host: string, body: string)
    ensures var h := Proxy.ForwardHeaders(Some(AuthorizationHeader(token)), host, body);
      "Authorization" in h && h["Authorization"] == Proxy.Text(AuthorizationHeader(token))
  {
  }

  /** A submission reaches the target the proxy computes from the lower-case
      role and advice type. */
  lemma SubmissionRoute(role: UserRole, adviceType: string)
    requires '/' !in adviceType
    ensures Proxy.Resolve(ProxyPath(Some(role), adviceType)) ==
      Proxy.Upstream(Proxy.NseTarget(Lower(RoleName(role)), Lower(adviceType)))
  {
    var r := Lower(RoleName(role));
    RoleSegment(role);
    assert ProxyPath(Some(role), adviceType) == Proxy.NsePrefix + r + "/" + adviceType;
    Proxy.ResolveNsePath(r, adviceType);
  }

  /** A lower-cased role name is one path segment and is already lower case. */
  lemma RoleSegment(role: UserRole)
    ensures '/' !in Lower(RoleName(role))
    ensures Lower(Lower(RoleName(role))) == Lower(RoleName(role))
  {
    match role
    case RA => assert Lower("RA") == "ra"; assert Lower("ra") == "ra";
    case IA => assert Lower("IA") == "ia"; assert Lower("ia") == "ia";
    case TMS => assert Lower("TMS") == "tms"; assert Lower("tms") == "tms";
  }

  /** Without a role the path says `undefined`, which the proxy routes as it
      routes an adviser. */
  lemma MissingRoleRoutesAsAdviser(adviceType: string)
    requires '/' !in adviceType
    ensures Proxy.Resolve(ProxyPath(None, adviceType)) == Proxy.Resolve(ProxyPath(Some(IA), adviceType))
  {
    var missing := "undefined";
    assert ProxyPath(None, adviceType) == Proxy.NsePrefix + missing + "/" + adviceType;
    Proxy.ResolveNsePath(missing, adviceType);
    SubmissionRoute(IA, adviceType);
    var adviser := Lower(RoleName(IA));
    assert adviser[0] == 'i';
    Proxy.TargetIgnoresOtherRoles(Lower(missing), adviser, Lower(adviceType));
  }

  /** The registry's advice prefix on the NSE base is the proxy's advice
      base. */
  lemma AdviceBasesAgree()
    ensures Endpoints.NseBase + Endpoints.AdvicePrefix == Proxy.AdviceBase
  {
  }

  /** The proxy's target below the advice base and the registry's URL of an
      advice endpoint are built from the same two segments. */
  lemma AdviceUrl(family: string, adviceType: string)
    ensures Endpoints.NseBase + Endpoints.AdvicePath(family, adviceType) ==
      Proxy.AdviceBase + family + "/" + adviceType
  {
    AdviceBasesAgree();
    var base, prefix := Endpoints.NseBase, Endpoints.AdvicePrefix;
    assert base + (prefix + family + "/" + adviceType) == (base + prefix) + family + "/" + adviceType;
  }

  /** An analyst's submission of each form goes where the registry's `ra-`
      entry for that form points. */
  lemma AnalystTargetsMatchRegistry()
    ensures Proxy.NseTarget("ra", "strategy") == Endpoints.RaStrategy.fullUrl
    ensures Proxy.NseTarget("ra", "singlestock") == Endpoints.RaSingleStock.fullUrl
    ensures Proxy.NseTarget("ra", "portfolio") == Endpoints.RaPortfolio.fullUrl
    ensures Proxy.NseTarget("ra", "intraday") == Endpoints.RaIntraday.fullUrl
    ensures Proxy.NseTarget("ra", "derivative") == Endpoints.RaDerivative.fullUrl
  {
    AdviceUrl("iainput", "strategy");
    AdviceUrl("iainput", "singlestock");
    AdviceUrl("rainput", "portfolio");
    AdviceUrl("rainput", "intraday");
    AdviceUrl("rainput", "derivative");
  }

  /** An adviser's submission of each form goes where the registry's `ia-`
      entry for that form points. */
  lemma AdviserTargetsMatchRegistry()
    ensures Proxy.NseTarget("ia", "strategy") == Endpoints.IaStrategy.fullUrl
    ensures Proxy.NseTarget("ia", "singlestock") == Endpoints.IaSingleStock.fullUrl
    ensures Proxy.NseTarget("ia", "portfolio") == Endpoints.IaPortfolio.fullUrl
    ensures Proxy.NseTarget("ia", "intraday") == Endpoints.IaIntraday.fullUrl
    ensures Proxy.NseTarget("ia", "derivative") == Endpoints.IaDerivative.fullUrl
  {
    AdviceUrl("iainput", "strategy");
    AdviceUrl("iainput", "singlestock");
    AdviceUrl("rainput", "portfolio");
    AdviceUrl("iainput", "intraday");
    AdviceUrl("iainput", "derivative");
  }

  /** The algo form goes where the registry's algo entry points, whatever
      the role. */
  lemma AlgoTargetMatchesRegistry(role: string)
    ensures Proxy.NseTarget(role, "algoinput") == Endpoints.AlgoInput.fullUrl
  {
    AdviceBasesAgree();
    var base, prefix := Endpoints.NseBase, Endpoints.AdvicePrefix;
    assert base + (prefix + "algoinput") == (base + prefix) + "algoinput";
  }

  /** The item list of the page, which never becomes empty. */
  class AdviceItems {
    var items: seq<Record>

    ghost predicate Valid()
      reads this
    {
      |items| >= 1
    }

    /** The list starts with one empty item. */
    constructor()
      ensures Valid() && items == [map[]]
    {
      items := [map[]];
    }

    /** `addItem`: appends one empty item. */
    method AddItem()
      requires Valid()
      modifies this
      ensures Valid()
      ensures items == old(items) + [map[]]
    {
      items := items + [map[]];
    }

    /** `removeItem`: with more than one item, drops the one at `index`;
        the last remaining item is never removed. */
    method RemoveItem(index: int)
      requires Valid()
      modifies this
      ensures Valid()
      ensures |old(items)| > 1 ==> items == RemoveIndex(old(items), index)
      ensures |old(items)| == 1 ==> items == old(items)
    {
      if |items| > 1 {
        items := RemoveIndex(items, index);
      }
    }

    /** `updateItem`: sets one field of one item. */
    method UpdateItem(index: nat, field: string, value: Json)
      requires Valid() && index < |items|
      modifies this
      ensures Valid()
      ensures |items| == |old(items)|
      ensures items[index] == old(items)[index][field := value]
      ensures forall i :: 0 <= i < |items| && i != index ==> items[i] == old(items)[i]
    {
      items := items[index := items[index][field := value]];
    }

    /** The reset after a successful submission. */
    method Reset()
      modifies this
      ensures Valid() && items == [map[]]
    {
      items := [map[]];
    }
  }
}
