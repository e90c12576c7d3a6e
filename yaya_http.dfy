/** `YayaHttpService`: configuration resolved once in the constructor, and a
    `get` that either answers from the mock fixtures or signs the request and
    sends it upstream. The HTTP transport, HMAC-SHA256 and `JSON.stringify`
    are parameters (`Effects`); the clock is a `Clock` value. */
module YayaHttp {
  import opened Wrappers
  import opened Text
  import opened Paths
  import opened Json
  import Base64
  import Signature

  /** The settings `ConfigService.get` reads: a key is either set or undefined. */
  type Config = map<string, string>

  const BaseUrlKey := "YAYA_BASE_URL"
  const ApiKeyKey := "YAYA_API_KEY"
  const ApiSecretKey := "YAYA_API_SECRET"
  const UseMockKey := "USE_MOCK"

  const DefaultBaseUrl := "https://yayawallet.com"
  const DefaultApiKey := "mock_key"
  const DefaultApiSecret := "mock_secret"
  const DefaultUseMock := "true"

  /** `config.get(key) || fallback`: an unset or empty setting falls back. */
  function SettingOr(config: Config, key: string, fallback: string): (v: string)
    ensures key in config && config[key] != "" ==> v == config[key]
    ensures key !in config || config[key] == "" ==> v == fallback
    ensures fallback != "" ==> v != ""
  {
    if key in config && config[key] != "" then config[key] else fallback
  }

  /** `config.get('YAYA_BASE_URL')?.replace(/\/+$/, '') || 'https://yayawallet.com'`:
      never empty and never ending in '/'; the setting without its trailing
      slashes when that leaves something, the default otherwise. */
  function ResolveBaseUrl(config: Config): (u: string)
    ensures u != "" && !EndsWithSlash(u)
    ensures BaseUrlKey in config && StripTrailingSlashes(config[BaseUrlKey]) != ""
            ==> u == StripTrailingSlashes(config[BaseUrlKey])
    ensures BaseUrlKey !in config || AllSlashes(config[BaseUrlKey]) ==> u == DefaultBaseUrl
  {
    if BaseUrlKey in config && StripTrailingSlashes(config[BaseUrlKey]) != "" then
      StripTrailingSlashes(config[BaseUrlKey])
    else
      DefaultBaseUrl
  }

  /** `config.get('USE_MOCK') || 'true'`: a non-empty string whatever the
      configuration, so JavaScript reads it as true. */
  function ResolveUseMock(config: Config): (m: string)
    ensures m != "" && Truthy(Str(m))
  {
    SettingOr(config, UseMockKey, DefaultUseMock)
  }

  /** Setting USE_MOCK to 'false' still selects mock mode. */
  lemma UseMockFalseStillMocks()
    ensures ResolveUseMock(map[UseMockKey := "false"]) == "false"
    ensures Truthy(Str(ResolveUseMock(map[UseMockKey := "false"])))
  {
  }

  /** `Date.now()` and `new Date().toISOString()` at the moment of the call. */
  datatype Clock = Clock(millis: nat, iso: string)

  datatype Header = Header(name: string, value: string)

  datatype HttpRequest = HttpRequest(url: string, params: seq<Field>, headers: seq<Header>)

  datatype HttpResponse = HttpResponse(data: Value)

  datatype HttpError = HttpError(message: string)

  /** The foreign code `get` relies on. */
  datatype Effects = Effects(
    hmac: Signature.Hmac,
    stringify: Signature.Stringify,
    send: HttpRequest -> Result<HttpResponse, HttpError>)

  // ---------------------------------------------------------------- mock mode

  const TimePath := "/api/en/time"
  const FindByUserPath := "/api/en/transactions/find-by-user"
  const SearchPath := "/api/en/transaction/search"

  /** A fixture record; note the payload key `created_at`. */
  datatype Transaction = Transaction(
    id: string, sender: string, receiver: string, amount: int,
    currency: string, cause: string, createdAt: string)

  function TransactionValue(t: Transaction): Value {
    Obj([Field("id", Str(t.id)), Field("sender", Str(t.sender)),
         Field("receiver", Str(t.receiver)), Field("amount", Num(t.amount)),
         Field("currency", Str(t.currency)), Field("cause", Str(t.cause)),
         Field("created_at", Str(t.createdAt))])
  }

  function T1(now: string): Transaction { Transaction("t1", "Alice", "Bob", 50, "USD", "deposit", now) }
  function T2(now: string): Transaction { Transaction("t2", "Bob", "Alice", 20, "USD", "withdrawal", now) }
  function T3(now: string): Transaction { Transaction("t3", "Charlie", "Alice", 75, "USD", "transfer", now) }

  /** Which branch of `mockResponse` answers: the first that matches. */
  datatype MockRoute = TimeRoute | FindByUserRoute | SearchRoute | CatchAll

  function RouteOf(path: string): (r: MockRoute)
    ensures r == TimeRoute <==> Contains(path, TimePath)
    ensures r == FindByUserRoute <==> !Contains(path, TimePath) && Contains(path, FindByUserPath)
    ensures r == SearchRoute
            <==> !Contains(path, TimePath) && !Contains(path, FindByUserPath) && Contains(path, SearchPath)
  {
    if Contains(path, TimePath) then TimeRoute
    else if Contains(path, FindByUserPath) then FindByUserRoute
    else if Contains(path, SearchPath) then SearchRoute
    else CatchAll
  }

  function TimeEnvelope(millis: nat): Value {
    Obj([Field("time", Num(millis)), Field("timezone", Str("UTC")), Field("client_ip", Str("127.0.0.1"))])
  }

  function FindByUserPage(params: seq<Field>, now: string): Value {
    var p := Lookup(params, "p");
    Obj([Field("userId", Lookup(params, "userId")),
         Field("page", Lookup(params, "page")),
         Field("transactions", Arr([TransactionValue(T1(now)), TransactionValue(T2(now))])),
         Field("currentPage", if Truthy(p) then p else Num(1))])
  }

  function SearchResults(now: string): Value {
    Obj([Field("results", Arr([TransactionValue(T3(now))]))])
  }

  function CatchAllMessage(path: string): Value {
    Obj([Field("message", Str("Mock response for " + path))])
  }

  /** `mockResponse(path, params)`: always an object, whose keys are those of
      the branch the path selects. */
  function MockResponse(path: string, params: seq<Field>, clock: Clock): (v: Value)
    ensures v.Obj?
    ensures RouteOf(path) == TimeRoute ==> Keys(v.fields) == ["time", "timezone", "client_ip"]
    ensures RouteOf(path) == FindByUserRoute
            ==> Keys(v.fields) == ["userId", "page", "transactions", "currentPage"]
    ensures RouteOf(path) == SearchRoute ==> Keys(v.fields) == ["results"]
    ensures RouteOf(path) == CatchAll ==> Keys(v.fields) == ["message"]
  {
    match RouteOf(path)
    case TimeRoute => TimeEnvelope(clock.millis)
    case FindByUserRoute => FindByUserPage(params, clock.iso)
    case SearchRoute => SearchResults(clock.iso)
    case CatchAll => CatchAllMessage(path)
  }

  /** The time mock: the clock value, 'UTC' and '127.0.0.1', whatever the params. */
  lemma TimeMockFields(path: string, params: seq<Field>, clock: Clock)
    requires RouteOf(path) == TimeRoute
    ensures var v := MockResponse(path, params, clock);
      Get(v, "time") == Num(clock.millis) && Get(v, "timezone") == Str("UTC")
      && Get(v, "client_ip") == Str("127.0.0.1")
  {
    var fields := TimeEnvelope(clock.millis).fields;
    LookupAt(fields, "time", 0);
    LookupAt(fields, "timezone", 1);
    LookupAt(fields, "client_ip", 2);
  }

  /** The find-by-user mock echoes `userId` and `page`, lists t1 then t2, and
      takes `currentPage` from a truthy `p`, else 1. */
  lemma FindByUserMockFields(path: string, params: seq<Field>, clock: Clock)
    requires RouteOf(path) == FindByUserRoute
    ensures var v := MockResponse(path, params, clock);
      && Get(v, "userId") == Lookup(params, "userId")
      && Get(v, "page") == Lookup(params, "page")
      && Get(v, "transactions") == Arr([TransactionValue(T1(clock.iso)), TransactionValue(T2(clock.iso))])
      && Get(v, "currentPage") == (if Truthy(Lookup(params, "p")) then Lookup(params, "p") else Num(1))
  {
    var v := FindByUserPage(params, clock.iso);
    assert MockResponse(path, params, clock) == v;
    var fields := v.fields;
    assert fields[0].key == "userId" && fields[1].key == "page"
      && fields[2].key == "transactions" && fields[3].key == "currentPage";
    assert Get(v, "userId") == Lookup(params, "userId") by { LookupAt(fields, "userId", 0); }
    assert Get(v, "page") == Lookup(params, "page") by { LookupAt(fields, "page", 1); }
    assert Get(v, "transactions") == fields[2].value by { LookupAt(fields, "transactions", 2); }
    assert Get(v, "currentPage") == fields[3].value by { LookupAt(fields, "currentPage", 3); }
  }

  /** The search mock returns the one record t3 and ignores the params. */
  lemma SearchMockFixed(path: string, p1: seq<Field>, p2: seq<Field>, clock: Clock)
    requires RouteOf(path) == SearchRoute
    ensures MockResponse(path, p1, clock) == MockResponse(path, p2, clock)
    ensures Get(MockResponse(path, p1, clock), "results") == Arr([TransactionValue(T3(clock.iso))])
  {
    LookupAt(SearchResults(clock.iso).fields, "results", 0);
  }

  /** A path that includes no fixture path gets the message naming it. */
  lemma CatchAllMockMessage(path: string, params: seq<Field>, clock: Clock)
    requires RouteOf(path) == CatchAll
    ensures Get(MockResponse(path, params, clock), "message") == Str("Mock response for " + path)
  {
    LookupAt(CatchAllMessage(path).fields, "message", 0);
  }

  lemma TimePathRoute()
    ensures RouteOf(TimePath) == TimeRoute
  {
    ContainsSelf(TimePath);
  }

  lemma FindByUserPathRoute()
    ensures RouteOf(FindByUserPath) == FindByUserRoute
  {
    assert 'm' in TimePath && 'm' !in FindByUserPath;
    MissingCharNotContained(FindByUserPath, TimePath, 'm');
    ContainsSelf(FindByUserPath);
  }

  lemma SearchPathRoute()
    ensures RouteOf(SearchPath) == SearchRoute
  {
    assert 'm' in TimePath && 'm' !in SearchPath;
    MissingCharNotContained(SearchPath, TimePath, 'm');
    assert 'f' in FindByUserPath && 'f' !in SearchPath;
    MissingCharNotContained(SearchPath, FindByUserPath, 'f');
    ContainsSelf(SearchPath);
  }

  const PluralSearchPath := "/api/en/transactions/search"

  /** The plural path does not include the singular search path: "transactions/"
      breaks it at offset 0, and the leading '/' at every other offset. */
  lemma PluralPathMissesSearchPath()
    ensures !Contains(PluralSearchPath, SearchPath)
  {
    var plural, search := "/api/en/transactions/search", "/api/en/transaction/search";
    assert plural == PluralSearchPath && search == SearchPath;
    assert |plural| == 27;
    assert |search| == 26;
    assert plural[19] == 's' && search[19] == '/' && plural[1] == 'a' && search[0] == '/';
    forall i | 0 <= i <= |plural| - |search| ensures !OccursAt(plural, search, i) {
      var k := if i == 0 then 19 else 0;
      assert plural[i..i + |search|][k] == plural[i + k];
    }
  }

  /** The plural search path matches none of the three fixtures and gets the
      catch-all envelope. */
  lemma PluralSearchPathFallsThrough(params: seq<Field>, clock: Clock)
    ensures RouteOf(PluralSearchPath) == CatchAll
    ensures MockResponse(PluralSearchPath, params, clock) == CatchAllMessage(PluralSearchPath)
  {
    assert 'm' in TimePath && 'm' !in PluralSearchPath;
    MissingCharNotContained(PluralSearchPath, TimePath, 'm');
    assert 'f' in FindByUserPath && 'f' !in PluralSearchPath;
    MissingCharNotContained(PluralSearchPath, FindByUserPath, 'f');
    PluralPathMissesSearchPath();
  }

  // ---------------------------------------------------------------- real mode

  /** The string the real branch signs: the params are appended, as JSON, when
      there is at least one. */
  function RelayPrehash(timestamp: string, fullPath: string, params: seq<Field>,
                        stringify: Signature.Stringify): (p: string)
    ensures StartsWith(p, timestamp + "GET" + fullPath)
  {
    timestamp + "GET" + fullPath + (if |params| > 0 then stringify(Obj(params)) else "")
  }

  /** With no params the real branch signs what `generateSignature` signs for
      a GET with a null body. */
  lemma RelayPrehashMatchesSignerWithoutParams(timestamp: string, fullPath: string,
                                               stringify: Signature.Stringify)
    requires HasLeadingSlash(fullPath)
    ensures RelayPrehash(timestamp, fullPath, [], stringify)
            == Signature.Prehash(timestamp, "GET", fullPath, None, stringify)
  {
    Signature.UpperGet();
  }

  /** With params the canonical string ends with their JSON. */
  lemma RelayPrehashWithParams(timestamp: string, fullPath: string, params: seq<Field>,
                               stringify: Signature.Stringify)
    requires |params| > 0
    ensures var p := RelayPrehash(timestamp, fullPath, params, stringify);
      var j := stringify(Obj(params));
      |p| >= |j| && p[|p| - |j|..] == j
  {
  }

  const ApiKeyHeader := "YAYA-API-KEY"
  const SignatureHeader := "YAYA-SIGNATURE"
  const TimestampHeader := "YAYA-TIMESTAMP"

  /** The three headers of a signed request, under three distinct names. */
  function SignedHeaders(apiKey: string, signature: string, timestamp: string): (h: seq<Header>)
    ensures |h| == 3
    ensures forall i, j :: 0 <= i < j < |h| ==> h[i].name != h[j].name
    ensures h[0].value == apiKey && h[1].value == signature && h[2].value == timestamp
  {
    [Header(ApiKeyHeader, apiKey), Header(SignatureHeader, signature), Header(TimestampHeader, timestamp)]
  }

  /** The request the real branch sends: to the base URL followed by the
      path, with the params unchanged and the three signed headers, the last
      holding the clock value in decimal. */
  function RealRequest(baseUrl: string, apiKey: string, apiSecret: string, fullPath: string,
                       params: seq<Field>, millis: nat, fx: Effects): (req: HttpRequest)
    ensures req.url == baseUrl + fullPath && req.params == params
    ensures |req.headers| == 3 && req.headers[0] == Header(ApiKeyHeader, apiKey)
    ensures req.headers[2] == Header(TimestampHeader, NatToDecimal(millis))
  {
    var timestamp := NatToDecimal(millis);
    var signature := Base64.Encode(fx.hmac(apiSecret, RelayPrehash(timestamp, fullPath, params, fx.stringify)));
    HttpRequest(baseUrl + fullPath, params, SignedHeaders(apiKey, signature, timestamp))
  }

  /** The real request: the URL is the base URL, whose last character is not
      '/', followed by the normalised path, whose first character is; the
      params go along unchanged, and there are exactly three headers: the API
      key, a 44-character base64 signature that decodes to the HMAC of the
      canonical string, and the decimal clock value that begins that string. */
  lemma RealRequestShape(baseUrl: string, apiKey: string, apiSecret: string, path: string,
                         params: seq<Field>, millis: nat, fx: Effects)
    requires baseUrl != "" && !EndsWithSlash(baseUrl)
    ensures var fullPath := NormalizePath(path);
      var req := RealRequest(baseUrl, apiKey, apiSecret, fullPath, params, millis, fx);
      && req.url == baseUrl + fullPath
      && req.url[|baseUrl| - 1] != '/' && req.url[|baseUrl|] == '/'
      && req.params == params
      && |req.headers| == 3
      && req.headers[0] == Header(ApiKeyHeader, apiKey)
      && req.headers[1].name == SignatureHeader
      && req.headers[2].name == TimestampHeader
      && |req.headers[2].value| > 0
      && (forall i :: 0 <= i < |req.headers[2].value| ==> IsDigit(req.headers[2].value[i]))
      && (req.headers[2].value[0] == '0' ==> req.headers[2].value == "0")
      && DecimalValue(req.headers[2].value) == millis
      && Signature.IsSignatureText(req.headers[1].value)
      && Base64.Decode(req.headers[1].value)
         == Some(fx.hmac(apiSecret, RelayPrehash(req.headers[2].value, fullPath, params, fx.stringify)))
  {
    var fullPath := NormalizePath(path);
    var timestamp := NatToDecimal(millis);
    var digest := fx.hmac(apiSecret, RelayPrehash(timestamp, fullPath, params, fx.stringify));
    DecimalRoundTrip(millis);
    Base64.DecodeEncode(digest);
    Signature.EncodedDigestShape(digest);
    var url := baseUrl + fullPath;
    assert url[|baseUrl| - 1] == baseUrl[|baseUrl| - 1];
    assert url[|baseUrl|] == fullPath[0];
  }

  // ---------------------------------------------------------------- the service

  class YayaHttpService {
    const baseUrl: string
    const apiKey: string
    const apiSecret: string
    const useMock: string

    /** What the constructor guarantees of the resolved configuration. */
    ghost predicate Valid() {
      baseUrl != "" && !EndsWithSlash(baseUrl) && apiKey != "" && apiSecret != "" && useMock != ""
    }

    constructor (config: Config)
      ensures baseUrl == ResolveBaseUrl(config)
      ensures apiKey == SettingOr(config, ApiKeyKey, DefaultApiKey)
      ensures apiSecret == SettingOr(config, ApiSecretKey, DefaultApiSecret)
      ensures useMock == ResolveUseMock(config)
      ensures Valid()
    {
      baseUrl := ResolveBaseUrl(config);
      apiKey := SettingOr(config, ApiKeyKey, DefaultApiKey);
      apiSecret := SettingOr(config, ApiSecretKey, DefaultApiSecret);
      useMock := ResolveUseMock(config);
    }

    /** What `get(path, params)` resolves to: the mock payload in mock mode;
        otherwise the upstream's data, or its error passed on after one
        attempt. */
    function Outcome(path: string, params: seq<Field>, clock: Clock, fx: Effects): Result<Value, HttpError> {
      var fullPath := NormalizePath(path);
      if useMock != "" then Success(MockResponse(fullPath, params, clock))
      else
        match fx.send(RealRequest(baseUrl, apiKey, apiSecret, fullPath, params, clock.millis, fx))
        case Success(response) => Success(response.data)
        case Failure(e) => Failure(e)
    }

    /** `get(path, params)`. */
    method Get(path: string, params: seq<Field>, clock: Clock, fx: Effects) returns (r: Result<Value, HttpError>)
      ensures r == Outcome(path, params, clock, fx)
    {
      var fullPath := NormalizePath(path);
      if useMock != "" {
        return Success(MockResponse(fullPath, params, clock));
      }
      var request := RealRequest(baseUrl, apiKey, apiSecret, fullPath, params, clock.millis, fx);
      var response := fx.send(request);
      match response {
        case Success(res) => r := Success(res.data);
        case Failure(e) => r := Failure(e);
      }
    }
  }

  /** A constructed service is always in mock mode: `get` answers from the
      fixtures for the normalised path and never calls the transport. */
  lemma MockAlwaysOn(svc: YayaHttpService, path: string, params: seq<Field>, clock: Clock,
                     fx1: Effects, fx2: Effects)
    requires svc.Valid()
    ensures svc.Outcome(path, params, clock, fx1) == Success(MockResponse(NormalizePath(path), params, clock))
    ensures svc.Outcome(path, params, clock, fx1) == svc.Outcome(path, params, clock, fx2)
  {
  }
}
