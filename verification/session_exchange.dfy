/** The deterministic part of turning a session string into an access token
    (src-tauri/src/augment_oauth.rs): the consent URL, the three fields read
    from the consent page, the token request, the enrichment endpoints and the
    composition of the final response. Randomness, hashing and every HTTP
    exchange are collaborators passed in as functions; the model records the
    requests it would issue so that "no token exchange was attempted" can be
    stated. */
module SessionExchange {
  import opened Wrappers
  import opened Primitives
  import QueryString
  import FieldExtraction

  const ClientId: string := "v"
  const AuthBaseUrl: string := "https://auth.augmentcode.com"
  /** Everything of the consent URL before its query. */
  const ConsentPrefix: string := AuthBaseUrl + "/terms-accept?"
  /** Prefix of the error reported when the HTTP client cannot be built. */
  const ClientErrorPrefix: string := "创建HTTP客户端失败: "

  /** Tag that opens every message reporting an unreadable consent page. */
  const SessionErrorTag: string := "SESSION_ERROR_OR_ACCOUNT_BANNED"

  // ---------------------------------------------------------------------------
  // Consent URL

  predicate IsBase64UrlChar(c: char) {
    'A' <= c <= 'Z' || 'a' <= c <= 'z' || '0' <= c <= '9' || c == '-' || c == '_'
  }

  /** Text in the unpadded URL-safe base64 alphabet, the form of the verifier,
      the challenge and the state. */
  predicate IsBase64Url(s: string) {
    forall j :: 0 <= j < |s| ==> IsBase64UrlChar(s[j])
  }

  /** The consent request's query parameters, in the order they are written. */
  function ConsentParams(challenge: string, clientId: string, state: string): seq<(string, string)> {
    [ ("response_type", "code"), ("code_challenge", challenge), ("client_id", clientId),
      ("state", state), ("prompt", "login") ]
  }

  /** The terms-accept URL: the fixed authorization host and path followed by
      the five query parameters above. */
  function ConsentUrl(challenge: string, clientId: string, state: string): string {
    ConsentPrefix + "response_type=code" + "&code_challenge=" + challenge
      + "&client_id=" + clientId + "&state=" + state + "&prompt=login"
  }

  /** The consent URL is the fixed prefix followed by exactly the five query
      parameters, in order. */
  lemma ConsentUrlIsEncodedQuery(challenge: string, clientId: string, state: string)
    ensures ConsentUrl(challenge, clientId, state)
            == ConsentPrefix + QueryString.Encode(ConsentParams(challenge, clientId, state))
  {
    EncodedConsentParams(challenge, clientId, state);
  }

  lemma EncodedConsentParams(challenge: string, clientId: string, state: string)
    ensures QueryString.Encode(ConsentParams(challenge, clientId, state))
            == "response_type=code" + "&code_challenge=" + challenge + "&client_id=" + clientId
               + "&state=" + state + "&prompt=login"
  {
    var params := ConsentParams(challenge, clientId, state);
    var e := QueryString.EncodedPairs(params);
    assert e == [QueryString.EncodePair(params[0]), QueryString.EncodePair(params[1]),
                 QueryString.EncodePair(params[2]), QueryString.EncodePair(params[3]),
                 QueryString.EncodePair(params[4])];
    QueryString.JoinFive(e[0], e[1], e[2], e[3], e[4], '&');
    ConsentLiterals();
    var x0 := "response_type=code";
    assert e[0] == x0;
    var x1 := x0 + "&code_challenge=" + challenge;
    AppendParam(x0, "code_challenge", challenge, "&code_challenge=");
    var x2 := x1 + "&client_id=" + clientId;
    AppendParam(x1, "client_id", clientId, "&client_id=");
    var x3 := x2 + "&state=" + state;
    AppendParam(x2, "state", state, "&state=");
    AppendParam(x3, "prompt", "login", "&prompt=");
  }

  /** Appending `&key=value` to a query. */
  lemma AppendParam(query: string, key: string, value: string, joint: string)
    requires joint == "&" + key + "="
    ensures query + ['&'] + QueryString.EncodePair((key, value)) == query + joint + value
  {
  }

  lemma ConsentLiterals()
    ensures "response_type" + "=" + "code" == "response_type=code"
    ensures "&code_challenge=" == "&" + "code_challenge" + "="
    ensures "&client_id=" == "&" + "client_id" + "="
    ensures "&state=" == "&" + "state" + "="
    ensures "&prompt=" == "&" + "prompt" + "="
    ensures "&prompt=" + "login" == "&prompt=login"
  {
  }

  /** Reading the query back out of a consent URL recovers the challenge, the
      client id and the state, whenever they are base64url text (as generated)
      and the client id holds no `&`. */
  lemma ConsentUrlRoundTrip(challenge: string, clientId: string, state: string)
    requires IsBase64Url(challenge) && IsBase64Url(state)
    requires Lacks(clientId, '&')
    ensures ConsentPrefix <= ConsentUrl(challenge, clientId, state)
    ensures QueryString.Decode(ConsentUrl(challenge, clientId, state)[|ConsentPrefix|..])
            == ConsentParams(challenge, clientId, state)
  {
    var url := ConsentUrl(challenge, clientId, state);
    var params := ConsentParams(challenge, clientId, state);
    ConsentUrlIsEncodedQuery(challenge, clientId, state);
    assert url[|ConsentPrefix|..] == QueryString.Encode(params);
    ConsentParamsPlain(challenge, clientId, state);
    QueryString.DecodeEncode(params);
  }

  lemma ConsentParamsPlain(challenge: string, clientId: string, state: string)
    requires IsBase64Url(challenge) && IsBase64Url(state)
    requires Lacks(clientId, '&')
    ensures forall k :: 0 <= k < 5 ==> QueryString.IsPlainParam(ConsentParams(challenge, clientId, state)[k])
  {
    var params := ConsentParams(challenge, clientId, state);
    assert forall j :: 0 <= j < |challenge| ==> IsBase64UrlChar(challenge[j]);
    assert forall j :: 0 <= j < |state| ==> IsBase64UrlChar(state[j]);
    assert QueryString.IsPlainParam(params[0]);
    assert QueryString.IsPlainParam(params[4]);
  }

  // ---------------------------------------------------------------------------
  // Consent page fields and errors

  datatype ConsentFields = ConsentFields(code: string, state: string, tenantUrl: string)

  /** The field a consent page failed to provide. */
  datatype MissingField = NoCode | NoState | NoTenantUrl

  /** A transport failure (`send`) or an unreadable body (`text` / `json`). */
  datatype HttpFailure = SendFailed(detail: string) | BodyFailed(detail: string)

  datatype ExchangeError =
    | ClientFailed(detail: string)
    | PageFailed(failure: HttpFailure)
    | SessionRejected(missing: MissingField)
    | TokenFailed(failure: HttpFailure)

  /** Reads code, state and tenant_url from the consent page, in that order;
      the first one absent names the error. */
  function ParseConsentPage(html: string): (r: Result<ConsentFields, ExchangeError>)
    ensures r.Success? <==> && FieldExtraction.Extract(html, "code").Some?
                            && FieldExtraction.Extract(html, "state").Some?
                            && FieldExtraction.Extract(html, "tenant_url").Some?
    ensures FieldExtraction.Extract(html, "code").None? ==> r == Failure(SessionRejected(NoCode))
    ensures FieldExtraction.Extract(html, "code").Some? && FieldExtraction.Extract(html, "state").None?
            ==> r == Failure(SessionRejected(NoState))
    ensures FieldExtraction.Extract(html, "code").Some? && FieldExtraction.Extract(html, "state").Some?
            && FieldExtraction.Extract(html, "tenant_url").None?
            ==> r == Failure(SessionRejected(NoTenantUrl))
    ensures r.Success? ==> && Some(r.value.code) == FieldExtraction.Extract(html, "code")
                           && Some(r.value.state) == FieldExtraction.Extract(html, "state")
                           && Some(r.value.tenantUrl) == FieldExtraction.Extract(html, "tenant_url")
  {
    var code :- FieldExtraction.Extract(html, "code").ToResult(SessionRejected(NoCode));
    var state :- FieldExtraction.Extract(html, "state").ToResult(SessionRejected(NoState));
    var tenantUrl :- FieldExtraction.Extract(html, "tenant_url").ToResult(SessionRejected(NoTenantUrl));
    Success(ConsentFields(code, state, tenantUrl))
  }

  /** The human-readable message each error is reported with. */
  function ErrorMessage(e: ExchangeError): string {
    match e
    case ClientFailed(d) => ClientErrorPrefix + d
    case PageFailed(SendFailed(d)) => "访问 terms-accept 页面失败: " + d
    case PageFailed(BodyFailed(d)) => "读取 HTML 响应失败: " + d
    case SessionRejected(NoCode) => SessionErrorTag + ": 无法提取授权码"
    case SessionRejected(NoState) => SessionErrorTag + ": 无法提取 state"
    case SessionRejected(NoTenantUrl) => SessionErrorTag + ": 无法提取 tenant_url"
    case TokenFailed(SendFailed(d)) => "交换 token 失败: " + d
    case TokenFailed(BodyFailed(d)) => "解析 token 响应失败: " + d
  }

  /** Distinct errors are reported with distinct messages: the message
      identifies the failed step and, for transport failures, the detail. */
  lemma ErrorMessageIdentifiesError(e1: ExchangeError, e2: ExchangeError)
    ensures ErrorMessage(e1) == ErrorMessage(e2) <==> e1 == e2
  {
    MessageStart(e1);
    MessageStart(e2);
    if ErrorMessage(e1) == ErrorMessage(e2) {
      if !e1.SessionRejected? && !e2.SessionRejected? {
        var p := Prefix(e1);
        assert ErrorMessage(e1)[0] == ErrorMessage(e2)[0];
        assert Prefix(e2) == p;
        assert Detail(e1) == ErrorMessage(e1)[|p|..];
        assert Detail(e2) == ErrorMessage(e2)[|p|..];
      }
    }
  }

  /** Only the session errors are reported in Latin script from their first
      character on. */
  lemma MessageStart(e: ExchangeError)
    ensures |ErrorMessage(e)| > 0 && (ErrorMessage(e)[0] == 'S' <==> e.SessionRejected?)
  {
  }

  /** The fixed text in front of a transport failure's detail. */
  function Prefix(e: ExchangeError): string
    requires !e.SessionRejected?
  {
    match e
    case ClientFailed(_) => ClientErrorPrefix
    case PageFailed(SendFailed(_)) => "访问 terms-accept 页面失败: "
    case PageFailed(BodyFailed(_)) => "读取 HTML 响应失败: "
    case TokenFailed(SendFailed(_)) => "交换 token 失败: "
    case TokenFailed(BodyFailed(_)) => "解析 token 响应失败: "
  }

  /** The detail a transport failure carries. */
  function Detail(e: ExchangeError): string
    requires !e.SessionRejected?
  {
    match e
    case ClientFailed(d) => d
    case PageFailed(f) => f.detail
    case TokenFailed(f) => f.detail
  }

  /** A message carries the session-error tag exactly when the consent page
      lacked one of its fields. */
  lemma SessionErrorTagged(e: ExchangeError)
    ensures SessionErrorTag <= ErrorMessage(e) <==> e.SessionRejected?
  {
    if !e.SessionRejected? {
      assert ErrorMessage(e)[0] != SessionErrorTag[0];
    }
  }

  // ---------------------------------------------------------------------------
  // Token request

  /** The JSON body of the token request. */
  datatype TokenPayload = TokenPayload(
    grantType: string, clientId: string, codeVerifier: string, redirectUri: string, code: string)

  /** The token endpoint: `tenant_url` with `token` written straight after
      it, no separator inserted. */
  function TokenUrl(tenantUrl: string): (url: string)
    ensures tenantUrl <= url && url[|tenantUrl|..] == "token"
  {
    tenantUrl + "token"
  }

  function TokenRequestBody(verifier: string, code: string): TokenPayload {
    TokenPayload("authorization_code", ClientId, verifier, "", code)
  }

  // ---------------------------------------------------------------------------
  // Enrichment

  predicate EndsWithSlash(s: string) {
    |s| > 0 && s[|s| - 1] == '/'
  }

  /** The base of the enrichment endpoints: the tenant URL, with a `/`
      appended only when it does not already end with one. */
  function EnrichmentBase(tenantUrl: string): (base: string)
    ensures EndsWithSlash(base)
    ensures tenantUrl <= base && |base| <= |tenantUrl| + 1
    ensures EndsWithSlash(tenantUrl) ==> base == tenantUrl
  {
    if EndsWithSlash(tenantUrl) then tenantUrl else tenantUrl + "/"
  }

  /** Normalising twice is normalising once. */
  lemma EnrichmentBaseIdempotent(tenantUrl: string)
    ensures EnrichmentBase(EnrichmentBase(tenantUrl)) == EnrichmentBase(tenantUrl)
  {
  }

  /** An enrichment endpoint: `name` under the tenant URL, with exactly one
      `/` between them when the tenant URL lacks its own. */
  function EnrichmentEndpoint(tenantUrl: string, name: string): (url: string)
    ensures EndsWithSlash(tenantUrl) ==> url == tenantUrl + name
    ensures !EndsWithSlash(tenantUrl) ==> url == tenantUrl + "/" + name
  {
    EnrichmentBase(tenantUrl) + name
  }

  /** The endpoint the email is read from. */
  function ModelsEndpoint(tenantUrl: string): string {
    EnrichmentEndpoint(tenantUrl, "get-models")
  }

  /** The endpoint the credit balance is read from. */
  function CreditEndpoint(tenantUrl: string): string {
    EnrichmentEndpoint(tenantUrl, "get-credit-info")
  }

  /** The token endpoint and the enrichment endpoints share their base only
      when the tenant URL already ends with `/`: the token URL gets no
      separator, the enrichment endpoints always do. */
  lemma TokenUrlSharesBaseIffSlash(tenantUrl: string)
    ensures TokenUrl(tenantUrl) == EnrichmentBase(tenantUrl) + "token" <==> EndsWithSlash(tenantUrl)
  {
    if !EndsWithSlash(tenantUrl) {
      var t := TokenUrl(tenantUrl);
      var u := EnrichmentBase(tenantUrl) + "token";
      assert u[|tenantUrl|] == '/';
      assert t[|tenantUrl|] == 't';
    }
  }

  /** Why an enrichment call failed: before its request was sent (the HTTP
      client could not be built) or at or after sending it. Either way the
      failure only blanks the fields it would have filled. */
  datatype EnrichmentFailure = NotSent(detail: string) | SendOrReadFailed(detail: string)

  /** The enrichment requests an outcome stands for: none when the call failed
      before sending, otherwise its one POST. */
  function SentFor<T>(outcome: Result<T, EnrichmentFailure>, post: Request): (sent: seq<Request>)
    ensures |sent| <= 1
    ensures sent == [] <==> outcome.Failure? && outcome.error.NotSent?
    ensures sent != [] ==> sent[0] == post
  {
    match outcome
    case Failure(NotSent(_)) => []
    case _ => [post]
  }

  /** What the credit endpoint yields once the remaining balance has been
      floored to an integer. */
  datatype CreditSummary = CreditSummary(balance: Int32, cycleEnd: string)

  datatype AugmentTokenResponse = AugmentTokenResponse(
    accessToken: string,
    tenantUrl: string,
    email: Option<string>,
    creditsBalance: Option<Int32>,
    expiryDate: Option<string>)

  /** Builds the response from the token and the two enrichment outcomes; a
      failed enrichment only blanks its own fields. */
  function ComposeResponse(
    accessToken: string, tenantUrl: string,
    email: Result<string, EnrichmentFailure>, credit: Result<CreditSummary, EnrichmentFailure>): (r: AugmentTokenResponse)
    ensures r.accessToken == accessToken && r.tenantUrl == tenantUrl
    ensures r.email.Some? <==> email.Success?
    ensures email.Success? ==> r.email.value == email.value
    ensures r.creditsBalance.Some? <==> r.expiryDate.Some?
    ensures r.creditsBalance.Some? <==> credit.Success?
    ensures credit.Success? ==> r.creditsBalance.value == credit.value.balance
                                && r.expiryDate.value == credit.value.cycleEnd
  {
    var emailField := match email
      case Success(e) => Some(e)
      case Failure(_) => None;
    var (balance, expiry) := match credit
      case Success(c) => (Some(c.balance), Some(c.cycleEnd))
      case Failure(_) => (None, None);
    AugmentTokenResponse(accessToken, tenantUrl, emailField, balance, expiry)
  }

  // ---------------------------------------------------------------------------
  // The whole exchange

  /** The code's collaborators: the challenge derivation (base64url of the
      SHA-256 of the verifier), the construction of the HTTP client, the
      consent-page GET carrying the session cookie, the token POST, and the
      two enrichment calls carrying the bearer token, each of which builds
      its own client first. Each is given the URL the model computed. */
  datatype Collaborators = Collaborators(
    challengeOf: string -> string,
    buildClient: Result<(), string>,
    fetchPage: (string, string) -> Result<string, HttpFailure>,
    exchangeCode: (string, TokenPayload) -> Result<string, HttpFailure>,
    fetchEmail: (string, string) -> Result<string, EnrichmentFailure>,
    fetchCredit: (string, string) -> Result<CreditSummary, EnrichmentFailure>)

  datatype Request =
    | ConsentGet(url: string, cookie: string)
    | TokenPost(url: string, payload: TokenPayload)
    | EnrichmentPost(url: string, bearer: string)

  /** The outcome of one exchange and the requests it issued, in order. */
  datatype Run = Run(result: Result<AugmentTokenResponse, ExchangeError>, requests: seq<Request>)

  /** The cookie header of the consent request: the session under the name
      `session`. */
  function SessionCookie(session: string): (cookie: string)
    ensures |cookie| == |session| + 8
    ensures cookie[..8] == "session=" && cookie[8..] == session
  {
    "session=" + session
  }

  /** The exchange of a session cookie for an access token, with the random
      verifier and state given. A client that cannot be built stops it
      before any request; the token request is the second request; the
      enrichment calls follow only a successful token exchange. */
  function ExtractTokenFromSession(session: string, verifier: string, state: string, env: Collaborators): (run: Run)
    ensures |run.requests| <= 4
    ensures run.requests == [] <==> env.buildClient.Failure?
    ensures env.buildClient.Failure? ==> run.result == Failure(ClientFailed(env.buildClient.error))
    ensures run.requests != [] ==>
              run.requests[0] == ConsentGet(ConsentUrl(env.challengeOf(verifier), ClientId, state), SessionCookie(session))
    ensures run.result.Success? ==> 2 <= |run.requests| && run.requests[1].TokenPost?
    ensures |run.requests| > 2 ==> run.result.Success?
  {
    match ExchangeCode(session, verifier, state, env)
    case Failure(stopped) => stopped
    case Success(x) => Enrich(x.issued, x.fields.tenantUrl, x.accessToken, env)
  }

  /** How far the exchange got by the token response: the requests issued,
      the fields read from the consent page and the access token. */
  datatype Exchanged = Exchanged(issued: seq<Request>, fields: ConsentFields, accessToken: string)

  /** The exchange up to and including the token request: either the run it
      stopped with, or how far it got. */
  function ExchangeCode(session: string, verifier: string, state: string, env: Collaborators): (r: Result<Exchanged, Run>)
    ensures var consent := ConsentGet(ConsentUrl(env.challengeOf(verifier), ClientId, state), SessionCookie(session));
      && (env.buildClient.Failure? ==> r == Failure(Run(Failure(ClientFailed(env.buildClient.error)), [])))
      && (env.buildClient.Success? && r.Failure? ==>
            && r.error.result.Failure?
            && 1 <= |r.error.requests| <= 2
            && r.error.requests[0] == consent)
      && (r.Success? ==> |r.value.issued| == 2 && r.value.issued[0] == consent && r.value.issued[1].TokenPost?)
  {
    match env.buildClient
    case Failure(d) => Failure(Run(Failure(ClientFailed(d)), []))
    case Success(_) =>
      var url := ConsentUrl(env.challengeOf(verifier), ClientId, state);
      var consent := ConsentGet(url, SessionCookie(session));
      match env.fetchPage(url, session)
      case Failure(f) => Failure(Run(Failure(PageFailed(f)), [consent]))
      case Success(html) =>
        match ParseConsentPage(html)
        case Failure(e) => Failure(Run(Failure(e), [consent]))
        case Success(fields) =>
          var tokenUrl := TokenUrl(fields.tenantUrl);
          var payload := TokenRequestBody(verifier, fields.code);
          var post := TokenPost(tokenUrl, payload);
          match env.exchangeCode(tokenUrl, payload)
          case Failure(f) => Failure(Run(Failure(TokenFailed(f)), [consent, post]))
          case Success(accessToken) => Success(Exchanged([consent, post], fields, accessToken))
  }

  /** The exchange up to the token response does not consult the enrichment
      collaborators. */
  lemma ExchangeCodeIgnoresEnrichment(
    session: string, verifier: string, state: string, env: Collaborators,
    fetchEmail: (string, string) -> Result<string, EnrichmentFailure>,
    fetchCredit: (string, string) -> Result<CreditSummary, EnrichmentFailure>)
    ensures ExchangeCode(session, verifier, state, env)
            == ExchangeCode(session, verifier, state, env.(fetchEmail := fetchEmail, fetchCredit := fetchCredit))
  {
  }

  /** The end of a successful exchange: both enrichment calls are made with
      the new token, the requests actually sent follow `issued`, and the
      response is composed from their outcomes. */
  function Enrich(issued: seq<Request>, tenantUrl: string, accessToken: string, env: Collaborators): (run: Run)
    ensures run.result.Success?
    ensures run.result.value.accessToken == accessToken && run.result.value.tenantUrl == tenantUrl
    ensures |issued| <= |run.requests| <= |issued| + 2 && issued <= run.requests
  {
    var modelsUrl := ModelsEndpoint(tenantUrl);
    var creditUrl := CreditEndpoint(tenantUrl);
    var email := env.fetchEmail(modelsUrl, accessToken);
    var credit := env.fetchCredit(creditUrl, accessToken);
    Run(Success(ComposeResponse(accessToken, tenantUrl, email, credit)),
        issued
        + SentFor(email, EnrichmentPost(modelsUrl, accessToken))
        + SentFor(credit, EnrichmentPost(creditUrl, accessToken)))
  }

  /** What follows `issued` is one POST per enrichment call that got as far
      as sending, and each part of the response follows its own call. */
  lemma EnrichSends(issued: seq<Request>, tenantUrl: string, accessToken: string, env: Collaborators)
    ensures var run := Enrich(issued, tenantUrl, accessToken, env);
      var email := env.fetchEmail(ModelsEndpoint(tenantUrl), accessToken);
      var credit := env.fetchCredit(CreditEndpoint(tenantUrl), accessToken);
      && run.requests[|issued|..] == SentFor(email, EnrichmentPost(ModelsEndpoint(tenantUrl), accessToken))
                                     + SentFor(credit, EnrichmentPost(CreditEndpoint(tenantUrl), accessToken))
      && (run.result.value.email.Some? <==> email.Success?)
      && (run.result.value.creditsBalance.Some? <==> run.result.value.expiryDate.Some?)
      && (run.result.value.creditsBalance.Some? <==> credit.Success?)
  {
    var run := Enrich(issued, tenantUrl, accessToken, env);
    var sent := run.requests[|issued|..];
    assert run.requests == issued + sent;
  }

  /** The consent page the exchange fetches. */
  function ConsentPage(session: string, verifier: string, state: string, env: Collaborators): Result<string, HttpFailure> {
    env.fetchPage(ConsentUrl(env.challengeOf(verifier), ClientId, state), session)
  }

  /** When the client is built but the consent page cannot be fetched or
      lacks one of its three fields, the exchange stops with that error after
      the one consent request: no token exchange is attempted. */
  lemma NoTokenRequestWithoutFields(session: string, verifier: string, state: string, env: Collaborators)
    requires env.buildClient.Success?
    requires ConsentPage(session, verifier, state, env).Failure?
             || ParseConsentPage(ConsentPage(session, verifier, state, env).value).Failure?
    ensures var run := ExtractTokenFromSession(session, verifier, state, env);
      && run.requests == [ConsentGet(ConsentUrl(env.challengeOf(verifier), ClientId, state), SessionCookie(session))]
      && run.result.Failure?
      && (run.result.error.SessionRejected? <==> ConsentPage(session, verifier, state, env).Success?)
  {
  }

  /** Once the three fields are read, the token request goes to the tenant URL
      with `token` appended, and carries the authorization-code grant, the
      client id, the generated verifier, an empty redirect URI and the
      extracted code. */
  lemma TokenRequestFromFields(session: string, verifier: string, state: string, env: Collaborators)
    ensures var page := ConsentPage(session, verifier, state, env);
      var run := ExtractTokenFromSession(session, verifier, state, env);
      env.buildClient.Success? && page.Success? && ParseConsentPage(page.value).Success? ==>
        && |run.requests| >= 2
        && run.requests[1].TokenPost?
        && run.requests[1].url == FieldExtraction.Extract(page.value, "tenant_url").value + "token"
        && run.requests[1].payload.grantType == "authorization_code"
        && run.requests[1].payload.clientId == ClientId
        && run.requests[1].payload.codeVerifier == verifier
        && run.requests[1].payload.redirectUri == ""
        && run.requests[1].payload.code == FieldExtraction.Extract(page.value, "code").value
  {
    var page := ConsentPage(session, verifier, state, env);
    if env.buildClient.Success? && page.Success? && ParseConsentPage(page.value).Success? {
      var fields := ParseConsentPage(page.value).value;
      var run := ExtractTokenFromSession(session, verifier, state, env);
      assert run.requests[1] == TokenPost(TokenUrl(fields.tenantUrl), TokenRequestBody(verifier, fields.code));
    }
  }

  /** The token response decides the outcome: the exchange succeeds exactly
      when the client is built, the page is fetched, its three fields are read
      and the code is exchanged, and it then reports the extracted tenant URL
      and the token. */
  lemma ExchangeOutcome(session: string, verifier: string, state: string, env: Collaborators)
    ensures var page := ConsentPage(session, verifier, state, env);
      var run := ExtractTokenFromSession(session, verifier, state, env);
      run.result.Success? <==>
        && env.buildClient.Success?
        && page.Success?
        && ParseConsentPage(page.value).Success?
        && env.exchangeCode(TokenUrl(ParseConsentPage(page.value).value.tenantUrl),
                            TokenRequestBody(verifier, ParseConsentPage(page.value).value.code)).Success?
    ensures var page := ConsentPage(session, verifier, state, env);
      var run := ExtractTokenFromSession(session, verifier, state, env);
      run.result.Success? ==>
        && Some(run.result.value.tenantUrl) == FieldExtraction.Extract(page.value, "tenant_url")
        && |run.result.value.tenantUrl| > 0
        && run.result.value.accessToken
           == env.exchangeCode(TokenUrl(run.result.value.tenantUrl),
                               TokenRequestBody(verifier, ParseConsentPage(page.value).value.code)).value
  {
  }

  /** A run is the stopped run of the first stage, or the enrichment of how
      far that stage got. */
  lemma RunOfStage(session: string, verifier: string, state: string, env: Collaborators)
    ensures var stage := ExchangeCode(session, verifier, state, env);
      var run := ExtractTokenFromSession(session, verifier, state, env);
      && (stage.Failure? ==> run == stage.error && run.result.Failure?)
      && (stage.Success? ==>
            && run.result.Success?
            && run.result.value.accessToken == stage.value.accessToken
            && run.result.value.tenantUrl == stage.value.fields.tenantUrl
            && run.requests[..2] == stage.value.issued)
  {
    match ExchangeCode(session, verifier, state, env)
    case Failure(_) =>
    case Success(x) =>
      var run := Enrich(x.issued, x.fields.tenantUrl, x.accessToken, env);
      assert ExtractTokenFromSession(session, verifier, state, env) == run;
      assert run.requests[..2] == x.issued;
  }

  /** Enrichment never decides the outcome: replacing both enrichment
      collaborators by any others leaves success, the token, the tenant URL
      and the first two requests as they were, and a failed run unchanged. */
  lemma EnrichmentCannotFailExchange(
    session: string, verifier: string, state: string, env: Collaborators,
    fetchEmail: (string, string) -> Result<string, EnrichmentFailure>,
    fetchCredit: (string, string) -> Result<CreditSummary, EnrichmentFailure>)
    ensures var run := ExtractTokenFromSession(session, verifier, state, env);
      var other := ExtractTokenFromSession(session, verifier, state,
                                           env.(fetchEmail := fetchEmail, fetchCredit := fetchCredit));
      && (run.result.Success? <==> other.result.Success?)
      && (run.result.Success? ==>
            && run.result.value.accessToken == other.result.value.accessToken
            && run.result.value.tenantUrl == other.result.value.tenantUrl
            && run.requests[..2] == other.requests[..2])
      && (run.result.Failure? ==> run == other)
  {
    ExchangeCodeIgnoresEnrichment(session, verifier, state, env, fetchEmail, fetchCredit);
    RunOfStage(session, verifier, state, env);
    RunOfStage(session, verifier, state, env.(fetchEmail := fetchEmail, fetchCredit := fetchCredit));
  }

  /** On success the enrichment calls go to the normalised base with the new
      token; each one's POST is issued unless that call failed before sending.
      The email is present exactly when its call succeeded, and the balance and
      the expiry date are present together, exactly when the credit call
      succeeded. */
  lemma EnrichmentComposed(session: string, verifier: string, state: string, env: Collaborators)
    ensures var run := ExtractTokenFromSession(session, verifier, state, env);
      run.result.Success? ==>
        var r := run.result.value;
        var modelsUrl := EnrichmentBase(r.tenantUrl) + "get-models";
        var creditUrl := EnrichmentBase(r.tenantUrl) + "get-credit-info";
        var email := env.fetchEmail(modelsUrl, r.accessToken);
        var credit := env.fetchCredit(creditUrl, r.accessToken);
        && run.requests[2..] == SentFor(email, EnrichmentPost(modelsUrl, r.accessToken))
                                + SentFor(credit, EnrichmentPost(creditUrl, r.accessToken))
        && (r.email.Some? <==> email.Success?)
        && (r.creditsBalance.Some? <==> r.expiryDate.Some?)
        && (r.creditsBalance.Some? <==> credit.Success?)
  {
    var stage := ExchangeCode(session, verifier, state, env);
    if stage.Success? {
      EnrichSends(stage.value.issued, stage.value.fields.tenantUrl, stage.value.accessToken, env);
    }
  }
}
