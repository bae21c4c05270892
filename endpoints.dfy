/** The endpoint registry: a constant table of the upstream endpoints and the
    `filter`/`find` queries over it. The table supplies, per endpoint, the
    payload shape the JWE wrapper uses and which public key encrypts it. */
module Endpoints {
  import opened Basics
  import opened Jwe

  datatype Category = AuthCategory | RaCategory | IaCategory | AlgoCategory

  /** The string a category is written as in the table and in queries. */
  function CategoryId(c: Category): string {
    match c
    case AuthCategory => "auth"
    case RaCategory => "ra"
    case IaCategory => "ia"
    case AlgoCategory => "algo"
  }

  datatype HttpMethod = Post | Get

  datatype FieldType = StringField | NumberField | BooleanField | DateField | DatetimeField

  /** `required` and `description` are optional properties of a field. */
  datatype EndpointField = EndpointField(name: string, fieldType: FieldType,
                                         required: Option<bool>, description: Option<string>)

  /** Which of the two PEM constants encrypts requests to the endpoint. The key
      text itself is not part of the model. */
  datatype KeyId = DataKey | AuthKey

  datatype Endpoint = Endpoint(
    id: string,
    name: string,
    category: Category,
    httpMethod: HttpMethod,
    baseUrl: string,
    path: string,
    fullUrl: string,
    requiresAuth: bool,
    payloadFormat: PayloadFormat,
    publicKey: KeyId,
    fields: seq<EndpointField>,
    description: Option<string>)

  const CareBase: string := "https://careparrva.com"
  const NseBase: string := "https://clientprofilinguat.nseindia.com"

  /** Every advice endpoint lies below this path. */
  const AdvicePrefix: string := "/api/advice/"

  /** The path of an advice endpoint: its input family, then its advice type. */
  function AdvicePath(family: string, adviceType: string): string {
    AdvicePrefix + family + "/" + adviceType
  }

  function Required(name: string, t: FieldType): EndpointField {
    EndpointField(name, t, Some(true), None)
  }

  /** The entries of the table that post arrays to the NSE advice API differ
      only in these parameters. */
  function NseEndpoint(id: string, name: string, category: Category, path: string,
                       requiresAuth: bool, fields: seq<EndpointField>, description: string): Endpoint
  {
    Endpoint(id, name, category, Post, NseBase, path, NseBase + path, requiresAuth,
             ArrayFormat, DataKey, fields, Some(description))
  }

  const AuthFields: seq<EndpointField> := [
    EndpointField("username", StringField, Some(true), Some("User ID")),
    EndpointField("password", StringField, Some(true), Some("Password")),
    EndpointField("role", StringField, Some(true), Some("RA or IA"))]

  const RaStrategyFields: seq<EndpointField> := [
    Required("adviceName", StringField), Required("exchange", StringField),
    Required("strategyName", StringField), Required("isIntraday", StringField)]

  const RaSingleStockFields: seq<EndpointField> := [
    Required("shortTermRecommendationType", StringField), Required("exchange", StringField),
    Required("adviceName", StringField), Required("shortTermEntryDt", DatetimeField),
    Required("shortTermStockName", StringField), Required("shortTermIsin", StringField),
    Required("shortTermHorizon", NumberField), Required("shortTermEntryPrice", NumberField),
    Required("shortTermTargetPrice", NumberField), Required("shortTermSlPrice", NumberField)]

  const RaPortfolioFields: seq<EndpointField> := [
    Required("portfolioName", StringField), Required("portfolioType", StringField),
    Required("stopPortfolio", StringField)]

  const RaIntradayFields: seq<EndpointField> := [
    Required("adviceName", StringField), Required("techCallType", StringField),
    Required("exchange", StringField), Required("securityEntryDt", DatetimeField),
    Required("techCallId", StringField), Required("isin", StringField),
    Required("techCallEntryPrice", NumberField), Required("techCallTargetPrice", NumberField),
    Required("techCallStopLoss", NumberField),
    EndpointField("note", StringField, Some(false), None)]

  const RaDerivativeFields: seq<EndpointField> := [
    Required("recommendationType", StringField), Required("adviceName", StringField),
    Required("exchange", StringField), Required("derivativeType", StringField),
    Required("derivativeOptionType", StringField), Required("derivativeName", StringField),
    Required("derivativeExpiryDt", DateField), Required("derivativeEntryPrice", NumberField),
    Required("derivativeEntryDttm", DatetimeField), Required("derivativeQuantity", NumberField),
    Required("derivativeTargetPrice", NumberField), Required("derivativeStopLoss", NumberField),
    Required("derivativeTotalMargin", NumberField),
    Required("derivativeOptionStrikePrice", StringField), Required("isIntraday", StringField)]

  const AlgoFields: seq<EndpointField> := [
    Required("exchange", StringField), Required("tradingMember", StringField),
    Required("algoId", StringField), Required("uniqueClientCode", StringField),
    Required("segment", StringField), Required("fixedCapital", NumberField)]

  const AuthEndpoint: Endpoint :=
    Endpoint("auth", "Authentication", AuthCategory, Post, CareBase,
             "/api/parrva/pdc/auth/authenticate",
             CareBase + "/api/parrva/pdc/auth/authenticate",
             false, ObjectFormat, AuthKey, AuthFields,
             Some("Login with username, password, and role (RA/IA)"))
  const RaStrategy: Endpoint :=
    NseEndpoint("ra-strategy", "RA Strategy", RaCategory, AdvicePath("iainput", "strategy"),
                false, RaStrategyFields, "Submit strategy advice (no auth required)")
  const IaStrategy: Endpoint :=
    NseEndpoint("ia-strategy", "IA Strategy", IaCategory, AdvicePath("iainput", "strategy"),
                true, [], "Submit strategy advice (requires auth)")
  const RaSingleStock: Endpoint :=
    NseEndpoint("ra-singlestock", "RA Single Stock", RaCategory, AdvicePath("iainput", "singlestock"),
                true, RaSingleStockFields, "Submit single stock recommendation")
  const IaSingleStock: Endpoint :=
    NseEndpoint("ia-singlestock", "IA Single Stock", IaCategory, AdvicePath("iainput", "singlestock"),
                false, [], "Submit single stock recommendation (no auth)")
  const RaPortfolio: Endpoint :=
    NseEndpoint("ra-portfolio", "RA Portfolio", RaCategory, AdvicePath("rainput", "portfolio"),
                true, RaPortfolioFields, "Submit portfolio recommendation")
  const IaPortfolio: Endpoint :=
    NseEndpoint("ia-portfolio", "IA Portfolio", IaCategory, AdvicePath("rainput", "portfolio"),
                true, [], "Submit portfolio recommendation (IA)")
  const RaIntraday: Endpoint :=
    NseEndpoint("ra-intraday", "RA Intraday", RaCategory, AdvicePath("rainput", "intraday"),
                true, RaIntradayFields, "Submit intraday recommendation")
  const IaIntraday: Endpoint :=
    NseEndpoint("ia-intraday", "IA Intraday", IaCategory, AdvicePath("iainput", "intraday"),
                true, [], "Submit intraday recommendation (IA)")
  const RaDerivative: Endpoint :=
    NseEndpoint("ra-derivative", "RA Derivative", RaCategory, AdvicePath("rainput", "derivative"),
                true, RaDerivativeFields, "Submit derivative recommendation")
  const IaDerivative: Endpoint :=
    NseEndpoint("ia-derivative", "IA Derivative", IaCategory, AdvicePath("iainput", "derivative"),
                true, [], "Submit derivative recommendation (IA)")
  const AlgoInput: Endpoint :=
    NseEndpoint("algoinput", "Algo Input", AlgoCategory, AdvicePrefix + "algoinput",
                true, AlgoFields, "Submit algo trading data")

  /** `ENDPOINTS`, in table order. */
  const Table: seq<Endpoint> := [
    AuthEndpoint, RaStrategy, IaStrategy, RaSingleStock, IaSingleStock, RaPortfolio,
    IaPortfolio, RaIntraday, IaIntraday, RaDerivative, IaDerivative, AlgoInput]

  /** `getEndpointsByCategory(category)`: the entries whose category is written
      `category`, in table order. */
  function GetEndpointsByCategory(category: string): (r: seq<Endpoint>)
    ensures forall e :: e in r <==> e in Table && CategoryId(e.category) == category
  {
    Filter(Table, InCategory(category))
  }

  /** The selection test of `getEndpointsByCategory`. */
  function InCategory(category: string): Endpoint -> bool {
    (e: Endpoint) => CategoryId(e.category) == category
  }

  /** `getEndpointById(id)`: the first entry with that id, or nothing. */
  function GetEndpointById(id: string): (r: Option<Endpoint>)
    ensures r.Some? ==> r.value in Table && r.value.id == id
    ensures r.None? <==> forall e :: e in Table ==> e.id != id
  {
    Find(Table, (e: Endpoint) => e.id == id)
  }

  datatype CategoryInfo = CategoryInfo(id: string, name: string, icon: string)

  /** `getCategories()`: the categories the sidebar lists. */
  function GetCategories(): (r: seq<CategoryInfo>)
    ensures |r| == 4
  {
    [CategoryInfo("auth", "Authentication", "key"),
     CategoryInfo("ra", "Research Analyst", "bar-chart"),
     CategoryInfo("ia", "Investment Advisor", "trending-up"),
     CategoryInfo("algo", "Algo Trading", "cpu")]
  }

  /** The listed categories are the four categories, each written as the table
      writes it, in the order auth, ra, ia, algo. */
  lemma CategoriesAreTheCategoryIds()
    ensures forall i :: 0 <= i < 4 ==>
      GetCategories()[i].id == CategoryId([AuthCategory, RaCategory, IaCategory, AlgoCategory][i])
  {
  }

  /** Only the authentication entry posts an object and uses the auth key;
      every other entry posts an array encrypted with the data key. */
  lemma OnlyAuthUsesObjectFormat()
    ensures forall e :: e in Table ==>
      (e.payloadFormat == ObjectFormat <==> e.category == AuthCategory) &&
      (e.publicKey == AuthKey <==> e.category == AuthCategory)
  {
  }

  /** Every entry's full URL is its base URL followed by its path. */
  lemma FullUrlIsBasePlusPath()
    ensures forall e :: e in Table ==> e.fullUrl == e.baseUrl + e.path
  {
  }

  /** No two entries share an id. */
  lemma IdsAreDistinct()
    ensures forall i, j :: 0 <= i < j < |Table| ==> Table[i].id != Table[j].id
  {
  }

  /** Looking up an entry by its own id finds that entry. */
  lemma GetEndpointByOwnId(i: nat)
    requires i < |Table|
    ensures GetEndpointById(Table[i].id) == Some(Table[i])
  {
    IdsAreDistinct();
    var r := GetEndpointById(Table[i].id);
    var j :| 0 <= j < |Table| && Table[j] == r.value;
    assert Table[j].id == Table[i].id;
  }

  /** The entries of each category, in table order. */
  function CategoryEntries(c: Category): seq<Endpoint> {
    match c
    case AuthCategory => [AuthEndpoint]
    case RaCategory => [RaStrategy, RaSingleStock, RaPortfolio, RaIntraday, RaDerivative]
    case IaCategory => [IaStrategy, IaSingleStock, IaPortfolio, IaIntraday, IaDerivative]
    case AlgoCategory => [AlgoInput]
  }

  /** `getEndpointsByCategory` returns each category's entries once each, in
      table order. */
  lemma EndpointsByCategory(c: Category)
    ensures GetEndpointsByCategory(CategoryId(c)) == CategoryEntries(c)
  {
    var p := InCategory(CategoryId(c));
    match c
    case AuthCategory => SelectFromTable(p, [AuthEndpoint]);
    case RaCategory => SelectFromTable(p, CategoryEntries(RaCategory));
    case IaCategory => SelectFromTable(p, CategoryEntries(IaCategory));
    case AlgoCategory => SelectFromTable(p, [AlgoInput]);
  }

  /** Selecting from the table gives `expected` when the entries the test
      accepts, in table order, are `expected`. */
  lemma SelectFromTable(p: Endpoint -> bool, expected: seq<Endpoint>)
    requires (Keep(AuthEndpoint, p) + Keep(RaStrategy, p) + Keep(IaStrategy, p) + Keep(RaSingleStock, p)) +
             (Keep(IaSingleStock, p) + Keep(RaPortfolio, p) + Keep(IaPortfolio, p) + Keep(RaIntraday, p)) +
             (Keep(IaIntraday, p) + Keep(RaDerivative, p) + Keep(IaDerivative, p) + Keep(AlgoInput, p)) == expected
    ensures Filter(Table, p) == expected
  {
    FilterTwelveIs(Table, AuthEndpoint, RaStrategy, IaStrategy, RaSingleStock, IaSingleStock, RaPortfolio,
                   IaPortfolio, RaIntraday, IaIntraday, RaDerivative, IaDerivative, AlgoInput, p, expected);
  }

  /** A category that is not one of the four selects nothing. */
  lemma UnknownCategoryIsEmpty(category: string)
    requires forall c: Category :: CategoryId(c) != category
    ensures GetEndpointsByCategory(category) == []
  {
    FilterNone(Table, InCategory(category));
  }

  /** Each category has entries in the table. */
  lemma EveryCategoryHasEntries(c: Category)
    ensures GetEndpointsByCategory(CategoryId(c)) != []
  {
    var w := match c
      case AuthCategory => AuthEndpoint
      case RaCategory => RaStrategy
      case IaCategory => IaStrategy
      case AlgoCategory => AlgoInput;
    assert w in Table && w.category == c;
    assert w in GetEndpointsByCategory(CategoryId(c));
  }
}
