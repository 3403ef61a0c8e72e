/**
 * The `auth` package: authenticators that put credentials on an outbound
 * request, and the choice of one of them from the client's configuration.
 *
 * Time is an integer count of nanoseconds passed in as `now`.  What the token
 * endpoint does with a request is passed in as an `Exchange`.
 */
module Auth {
  import opened Wrappers
  import opened GoStrings
  import opened GoBytes
  import opened GoConv
  import opened GoTime
  import opened Base64
  import opened Http

  datatype FetchError =
    | RequestNotCreated
    | TransportFailed
    | BadStatus(status: int)
    | BodyNotDecoded
    | NoAccessToken

  datatype AuthError = MissingClientCredentials | TokenFetchFailed(cause: FetchError)

  // ---------------------------------------------------------------- basic.go

  /** HTTP Basic authentication (section 2 of RFC 7617). */
  datatype BasicAuth = BasicAuth(username: string, password: string)
  {
    /**
     * `EncodeCredentials`: the padded standard base64 of the bytes of
     * `username:password`; it decodes back to exactly those bytes.
     */
    function EncodeCredentials(): (enc: string)
      ensures Decode(enc) == Some(Utf8(username) + [Colon] + Utf8(password))
      ensures |enc| == 4 * ((|Utf8(username + ":" + password)| + 2) / 3)
    {
      var bytes := Utf8(username + ":" + password);
      assert |Encode(bytes)| == 4 * ((|bytes| + 2) / 3);
      CredentialBytes(username, password);
      RoundTrip(bytes);
      Encode(bytes)
    }

    /** The headers after `Apply`: `SetBasicAuth` when either credential is set. */
    function Applied(h: Header): (h': Header)
      ensures username == "" && password == "" ==> h' == h
      ensures username != "" || password != "" ==>
        Authorization in h' && h'[Authorization] == "Basic " + EncodeCredentials()
      ensures forall k :: k != Authorization ==> (k in h' <==> k in h) && (k in h ==> h'[k] == h[k])
    {
      if username != "" || password != "" then SetHeader(h, Authorization, "Basic " + EncodeCredentials())
      else h
    }

    /** `Apply` never fails. */
    method Apply(req: Request) returns (r: Outcome<AuthError>)
      modifies req`header
      ensures r == Pass && req.header == Applied(old(req.header))
    {
      if username != "" || password != "" {
        req.header := SetHeader(req.header, Authorization, "Basic " + EncodeCredentials());
      }
      return Pass;
    }
  }

  /** The byte of `:`. */
  const Colon: byte := 0x3A

  /** The bytes of `username:password` are those of its three parts. */
  lemma CredentialBytes(username: string, password: string)
    ensures Utf8(username + ":" + password) == Utf8(username) + [Colon] + Utf8(password)
  {
    assert Utf8(":") == [Colon] by {
      assert ":"[1..] == "";
    }
    Utf8Append(username, ":");
    Utf8Append(username + ":", password);
  }

  /** ASCII credentials: the encoding is 4 characters per started group of 3 bytes. */
  lemma EncodedLengthAscii(b: BasicAuth)
    requires forall i :: 0 <= i < |b.username| ==> b.username[i] as int < 0x80
    requires forall i :: 0 <= i < |b.password| ==> b.password[i] as int < 0x80
    ensures |b.EncodeCredentials()| == 4 * ((|b.username| + |b.password| + 3) / 3)
  {
    AsciiJoinedLength(b.username, b.password);
    SameGroups(|Utf8(b.username + ":" + b.password)|, |b.username| + |b.password| + 3);
  }

  /** ASCII credentials have one byte per character, the `:` included. */
  lemma AsciiJoinedLength(username: string, password: string)
    requires forall i :: 0 <= i < |username| ==> username[i] as int < 0x80
    requires forall i :: 0 <= i < |password| ==> password[i] as int < 0x80
    ensures |Utf8(username + ":" + password)| == |username| + |password| + 1
  {
    var s := username + ":" + password;
    forall i | 0 <= i < |s| ensures s[i] as int < 0x80 {
      if i < |username| {
        assert s[i] == username[i];
      } else if i > |username| {
        assert s[i] == password[i - |username| - 1];
      }
    }
    Utf8Ascii(s);
  }

  lemma SameGroups(n: int, m: int)
    requires n + 2 == m
    ensures (n + 2) / 3 == m / 3
  {
  }

  /** Applying basic authentication twice is applying it once. */
  lemma BasicIdempotent(b: BasicAuth, h: Header)
    ensures b.Applied(b.Applied(h)) == b.Applied(h)
  {
  }

  // --------------------------------------------------------------- bearer.go

  datatype BearerAuth = BearerAuth(token: string)
  {
    /** The headers after `Apply`: `Authorization: Bearer <token>` when there is a token. */
    function Applied(h: Header): (h': Header)
      ensures token == "" ==> h' == h
      ensures token != "" ==> Authorization in h' && h'[Authorization] == BearerCredential(token)
      ensures forall k :: k != Authorization ==> (k in h' <==> k in h) && (k in h ==> h'[k] == h[k])
    {
      if token != "" then SetHeader(h, Authorization, BearerCredential(token)) else h
    }

    /** `Apply` never fails. */
    method Apply(req: Request) returns (r: Outcome<AuthError>)
      modifies req`header
      ensures r == Pass && req.header == Applied(old(req.header))
    {
      if token != "" {
        req.header := SetHeader(req.header, Authorization, BearerCredential(token));
      }
      return Pass;
    }
  }

  /** Applying a bearer token twice is applying it once. */
  lemma BearerIdempotent(b: BearerAuth, h: Header)
    ensures b.Applied(b.Applied(h)) == b.Applied(h)
  {
  }

  // --------------------------------------------------------------- custom.go

  datatype CustomAuth = CustomAuth(header: string, value: string)
  {
    /** The headers after `Apply`: the named header is set when name and value are both non-empty. */
    function Applied(h: Header): (h': Header)
      ensures header == "" || value == "" ==> h' == h
      ensures header != "" && value != "" ==> header in h' && h'[header] == value
      ensures forall k :: k != header ==> (k in h' <==> k in h) && (k in h ==> h'[k] == h[k])
    {
      if header != "" && value != "" then SetHeader(h, header, value) else h
    }

    /** `Apply` never fails. */
    method Apply(req: Request) returns (r: Outcome<AuthError>)
      modifies req`header
      ensures r == Pass && req.header == Applied(old(req.header))
    {
      if header != "" && value != "" {
        req.header := SetHeader(req.header, header, value);
      }
      return Pass;
    }
  }

  /** Applying a custom header twice is applying it once. */
  lemma CustomIdempotent(c: CustomAuth, h: Header)
    ensures c.Applied(c.Applied(h)) == c.Applied(h)
  {
  }

  // --------------------------------------------------------------- oauth2.go

  const GrantType: string := "client_credentials"
  const FormContentType: string := "application/x-www-form-urlencoded"
  const AcceptJson: string := "application/json"
  /** Seconds taken off the lifetime the server declares. */
  const ExpiryMarginSeconds: int := 60
  /** The lifetime assumed when the server declares none. */
  const DefaultLifetime: int := 55 * Minute

  /** The JSON body of the token endpoint's answer; a field it omits reads as "" or 0. */
  datatype TokenBody = Undecodable | TokenJson(accessToken: string, tokenType: string, expiresIn: int)

  /**
   * What happens to one token request: it cannot be created (a bad token URL),
   * the transport fails, or the endpoint answers with a status and a body.
   */
  datatype Exchange = NotCreated | TransportError | Responded(status: int, body: TokenBody)

  /** The token request as sent: a POST of the form parameters to the token URL. */
  datatype TokenRequest = TokenRequest(verb: string, url: string, header: Header, form: map<string, string>)

  /** The form of a client-credentials grant (section 4.4.2 of RFC 6749). */
  function TokenForm(clientID: string, clientSecret: string, scopes: seq<string>): (f: map<string, string>)
    ensures f.Keys == {"grant_type", "client_id", "client_secret"} + (if |scopes| > 0 then {"scope"} else {})
    ensures f["grant_type"] == GrantType && f["client_id"] == clientID && f["client_secret"] == clientSecret
    ensures |scopes| > 0 ==> f["scope"] == Join(scopes, " ")
  {
    var base := map["grant_type" := GrantType, "client_id" := clientID, "client_secret" := clientSecret];
    if |scopes| > 0 then base["scope" := Join(scopes, " ")] else base
  }

  /** An answer that yields a token: status 200 and a decoded, non-empty `access_token`. */
  predicate Granted(e: Exchange)
    ensures Granted(e) ==> e.Responded? && e.status == 200 && e.body.TokenJson?
    ensures e.Responded? && e.status == 200 && e.body.TokenJson? ==> (Granted(e) <==> e.body.accessToken != "")
  {
    e.Responded? && e.status == 200 && e.body.TokenJson? && e.body.accessToken != ""
  }

  /** The error `fetchToken` reports for an answer that yields no token. */
  function FetchFailure(e: Exchange): (r: FetchError)
    requires !Granted(e)
    ensures r == RequestNotCreated <==> e.NotCreated?
    ensures r == TransportFailed <==> e.TransportError?
    ensures r.BadStatus? <==> e.Responded? && e.status != 200
    ensures r.BadStatus? ==> r.status == e.status
    ensures r == BodyNotDecoded <==> e.Responded? && e.status == 200 && e.body.Undecodable?
    ensures r == NoAccessToken <==> e.Responded? && e.status == 200 && e.body.TokenJson?
  {
    match e
    case NotCreated => RequestNotCreated
    case TransportError => TransportFailed
    case Responded(status, body) =>
      if status != 200 then BadStatus(status)
      else if body.Undecodable? then BodyNotDecoded
      else NoAccessToken
  }

  /**
   * The expiry of a fresh token: the declared lifetime less the margin when
   * one is declared, else the default lifetime (the duration is computed
   * exactly; see `ExpiryAsWritten` for the source's 64-bit arithmetic).
   */
  function TokenExpiry(now: int, expiresIn: int): (r: int)
    ensures now < r <==> expiresIn <= 0 || expiresIn > ExpiryMarginSeconds
    ensures expiresIn > 0 ==> r < now + expiresIn * Second
  {
    if expiresIn > 0 then now + (expiresIn - ExpiryMarginSeconds) * Second else now + DefaultLifetime
  }

  /** A token that lives longer than the margin is valid now and is dropped before the server's expiry. */
  lemma ExpiryWithinLifetime(now: int, expiresIn: int)
    requires expiresIn > ExpiryMarginSeconds
    ensures now < TokenExpiry(now, expiresIn) < now + expiresIn * Second
  {
  }

  /** A declared lifetime of at most the margin gives a token that is already stale. */
  lemma ShortLifetimeIsStale(now: int, expiresIn: int)
    requires 0 < expiresIn <= ExpiryMarginSeconds
    ensures TokenExpiry(now, expiresIn) <= now
  {
  }

  /** No declared lifetime: the token lasts 55 minutes. */
  lemma DefaultExpiry(now: int, expiresIn: int)
    requires expiresIn <= 0
    ensures TokenExpiry(now, expiresIn) == now + 3300 * Second
  {
  }

  /** The two's-complement value of `x` in 64 bits, as Go's `int64` arithmetic leaves it. */
  function Wrap64(x: int): (r: int)
    ensures MinInt64 <= r <= MaxInt64
    ensures MinInt64 <= x <= MaxInt64 ==> r == x
  {
    var m := (x - MinInt64) % 0x1_0000_0000_0000_0000;
    m + MinInt64
  }

  /**
   * The expiry as the source computes it: the product of the lifetime and
   * `time.Second` is a 64-bit `time.Duration`, which wraps around.
   */
  function ExpiryAsWritten(now: int, expiresIn: int): (r: int)
    ensures MinInt64 <= r - now <= MaxInt64
    ensures expiresIn <= 0 ==> r == now + DefaultLifetime
  {
    if expiresIn > 0 then now + Wrap64((expiresIn - ExpiryMarginSeconds) * Second) else now + DefaultLifetime
  }

  /** Both agree while the duration fits in 64 bits. */
  lemma ExpiryAsWrittenAgrees(now: int, expiresIn: int)
    requires expiresIn <= MaxInt64 / Second
    ensures ExpiryAsWritten(now, expiresIn) == TokenExpiry(now, expiresIn)
  {
  }

  /** A lifetime of 10^10 seconds wraps to a negative duration: the token is stale on arrival. */
  lemma ExpiryAsWrittenOverflows(now: int)
    ensures ExpiryAsWritten(now, 10_000_000_000) < now
    ensures now < TokenExpiry(now, 10_000_000_000)
  {
    assert (10_000_000_000 - 60) * Second == 9_999_999_940_000_000_000;
    assert Wrap64(9_999_999_940_000_000_000) == -8_446_744_133_709_551_616;
  }

  /** `OAuth2ClientCredentials`: the credentials, the cached token and its expiry. */
  class OAuth2ClientCredentials {
    const clientID: string
    const clientSecret: string
    const tokenURL: string
    const scopes: seq<string>
    var token: string
    var expiry: int
    /** The token requests sent so far. */
    ghost var sent: seq<TokenRequest>

    constructor Init(clientID: string, clientSecret: string, tokenURL: string, scopes: seq<string>)
      ensures this.clientID == clientID && this.clientSecret == clientSecret
      ensures this.tokenURL == tokenURL && this.scopes == scopes
      ensures token == "" && sent == []
    {
      this.clientID := clientID;
      this.clientSecret := clientSecret;
      this.tokenURL := tokenURL;
      this.scopes := scopes;
      token := "";
      expiry := 0;
      sent := [];
    }

    /**
     * `NewOAuth2ClientCredentials`: fails exactly when one of the client ID,
     * the secret and the token URL is empty; a new authenticator has no token.
     */
    static method New(clientID: string, clientSecret: string, tokenURL: string, scopes: seq<string>)
      returns (r: Result<OAuth2ClientCredentials, AuthError>)
      ensures r.Failure? <==> clientID == "" || clientSecret == "" || tokenURL == ""
      ensures r.Failure? ==> r.error == MissingClientCredentials
      ensures r.Success? ==> fresh(r.value) && r.value.token == "" && r.value.sent == []
      ensures r.Success? ==> r.value.clientID == clientID && r.value.clientSecret == clientSecret
      ensures r.Success? ==> r.value.tokenURL == tokenURL && r.value.scopes == scopes
    {
      if clientID == "" || clientSecret == "" || tokenURL == "" {
        return Failure(MissingClientCredentials);
      }
      var o := new OAuth2ClientCredentials.Init(clientID, clientSecret, tokenURL, scopes);
      return Success(o);
    }

    /** The cached token may be used at `now`. */
    predicate HasValidToken(now: int)
      reads this
      ensures HasValidToken(now) ==> token != ""
      ensures now >= expiry ==> !HasValidToken(now)
    {
      token != "" && now < expiry
    }

    /** The request `fetchToken` sends. */
    function TokenRequestSent(): (t: TokenRequest)
      ensures t.verb == "POST" && t.url == tokenURL
      ensures t.header == map[ContentType := FormContentType, "Accept" := AcceptJson]
      ensures t.form == TokenForm(clientID, clientSecret, scopes)
    {
      TokenRequest("POST", tokenURL, SetHeader(SetHeader(map[], ContentType, FormContentType), "Accept", AcceptJson),
                   TokenForm(clientID, clientSecret, scopes))
    }

    /**
     * `fetchToken`: a granted answer replaces the cache with its token and
     * expiry and returns the token; any other answer reports why and leaves
     * the cache as it was.
     */
    method FetchToken(now: int, exchange: Exchange) returns (r: Result<string, FetchError>)
      modifies this`token, this`expiry, this`sent
      ensures sent == if exchange.NotCreated? then old(sent) else old(sent) + [TokenRequestSent()]
      ensures r.Success? <==> Granted(exchange)
      ensures r.Success? ==> r.value == token == exchange.body.accessToken && token != ""
      ensures r.Success? ==> expiry == TokenExpiry(now, exchange.body.expiresIn)
      ensures r.Failure? ==> r.error == FetchFailure(exchange)
      ensures r.Failure? ==> token == old(token) && expiry == old(expiry)
    {
      var request := TokenRequestSent();
      if exchange.NotCreated? {
        return Failure(RequestNotCreated);
      }
      sent := sent + [request];
      if exchange.TransportError? {
        return Failure(TransportFailed);
      }
      if exchange.status != 200 {
        return Failure(BadStatus(exchange.status));
      }
      if exchange.body.Undecodable? {
        return Failure(BodyNotDecoded);
      }
      if exchange.body.accessToken == "" {
        return Failure(NoAccessToken);
      }
      token := exchange.body.accessToken;
      if exchange.body.expiresIn > 0 {
        expiry := now + (exchange.body.expiresIn - ExpiryMarginSeconds) * Second;
      } else {
        expiry := now + DefaultLifetime;
      }
      return Success(token);
    }

    /**
     * `getValidToken`: the cached token while it is valid, with no request
     * sent; otherwise the outcome of a fetch.
     */
    method GetValidToken(now: int, exchange: Exchange) returns (r: Result<string, FetchError>)
      modifies this`token, this`expiry, this`sent
      ensures old(HasValidToken(now)) ==>
        r == Success(old(token)) && token == old(token) && expiry == old(expiry) && sent == old(sent)
      ensures !old(HasValidToken(now)) ==>
        sent == (if exchange.NotCreated? then old(sent) else old(sent) + [TokenRequestSent()]) &&
        (r.Success? <==> Granted(exchange)) &&
        (r.Success? ==> token == exchange.body.accessToken && expiry == TokenExpiry(now, exchange.body.expiresIn)) &&
        (r.Failure? ==> r.error == FetchFailure(exchange))
      ensures r.Success? ==> r.value == token && token != ""
      ensures r.Failure? ==> token == old(token) && expiry == old(expiry)
    {
      if HasValidToken(now) {
        return Success(token);
      }
      r := FetchToken(now, exchange);
    }

    /**
     * `Apply`: with a token in hand it sets `Authorization: Bearer <token>`;
     * without one it reports the failure and leaves the request alone.
     */
    method Apply(req: Request, now: int, exchange: Exchange) returns (r: Outcome<AuthError>)
      modifies this`token, this`expiry, this`sent, req`header
      ensures r == Pass <==> old(HasValidToken(now)) || Granted(exchange)
      ensures r == Pass ==> token != "" && req.header == SetHeader(old(req.header), Authorization, BearerCredential(token))
      ensures r.Fail? ==> r.error == TokenFetchFailed(FetchFailure(exchange))
      ensures r.Fail? ==> req.header == old(req.header) && token == old(token) && expiry == old(expiry)
      ensures old(HasValidToken(now)) ==> token == old(token) && expiry == old(expiry) && sent == old(sent)
      ensures !old(HasValidToken(now)) ==>
        sent == (if exchange.NotCreated? then old(sent) else old(sent) + [TokenRequestSent()]) &&
        (r == Pass ==> token == exchange.body.accessToken && expiry == TokenExpiry(now, exchange.body.expiresIn))
    {
      var got := GetValidToken(now, exchange);
      if got.Failure? {
        return Fail(TokenFetchFailed(got.error));
      }
      req.header := SetHeader(req.header, Authorization, BearerCredential(got.value));
      return Pass;
    }
  }

  /**
   * A token fetched with a one-hour lifetime is reused one second later: the
   * second `Apply` sends no request, whatever the endpoint would answer, and
   * sets the same header.
   */
  method CachedTokenScenario(later: Exchange) returns (first: Outcome<AuthError>, second: Outcome<AuthError>,
                                                       ghost requests: nat, header: string)
    ensures first == Pass && second == Pass && requests == 1
    ensures header == BearerCredential("abc")
  {
    var made := OAuth2ClientCredentials.New("id", "secret", "https://auth.example/token", []);
    var o := made.value;
    var req := new Request("GET", "https://api.example/", map[]);
    first := o.Apply(req, 0, Responded(200, TokenJson("abc", "Bearer", 3600)));
    var again := new Request("GET", "https://api.example/", map[]);
    second := o.Apply(again, Second, later);
    requests := |o.sent|;
    header := again.header[Authorization];
  }

  // ----------------------------------------------------------------- auth.go

  /** The credential settings of the client. */
  datatype Config = Config(
    username: string, password: string,
    bearerToken: string,
    clientID: string, clientSecret: string, tokenURL: string, scopes: seq<string>,
    customHeader: string, customValue: string)

  datatype Choice = UseBasic | UseBearer | UseOAuth2 | UseCustom | UseNone

  /** The authenticator `NewAuthenticator` builds, by its fixed order of precedence. */
  function Choose(c: Config): (r: Choice)
    ensures r == UseNone <==>
      c.username == "" && c.password == "" && c.bearerToken == "" &&
      (c.clientID == "" || c.clientSecret == "" || c.tokenURL == "") &&
      (c.customHeader == "" || c.customValue == "")
  {
    if c.username != "" || c.password != "" then UseBasic
    else if c.bearerToken != "" then UseBearer
    else if c.clientID != "" && c.clientSecret != "" && c.tokenURL != "" then UseOAuth2
    else if c.customHeader != "" && c.customValue != "" then UseCustom
    else UseNone
  }

  /** Each kind is chosen exactly when its own settings are complete and no earlier kind's are. */
  lemma ChoosePrecedence(c: Config)
    ensures Choose(c) == UseBasic <==> c.username != "" || c.password != ""
    ensures Choose(c) == UseBearer <==> c.username == "" && c.password == "" && c.bearerToken != ""
    ensures Choose(c) == UseOAuth2 <==>
      c.username == "" && c.password == "" && c.bearerToken == "" &&
      c.clientID != "" && c.clientSecret != "" && c.tokenURL != ""
    ensures Choose(c) == UseCustom <==>
      c.username == "" && c.password == "" && c.bearerToken == "" &&
      (c.clientID == "" || c.clientSecret == "" || c.tokenURL == "") &&
      c.customHeader != "" && c.customValue != ""
  {
  }

  /** Once a username or password is set, no other setting matters. */
  lemma BasicWinsRegardless(c: Config, d: Config)
    requires c.username != "" || c.password != ""
    requires d.username == c.username && d.password == c.password
    ensures Choose(c) == Choose(d) == UseBasic
  {
  }

  /** An OAuth2 configuration missing its token URL falls through to the custom header, or to none. */
  lemma PartialOAuth2FallsThrough(c: Config)
    requires c.username == "" && c.password == "" && c.bearerToken == ""
    requires c.clientID != "" && c.clientSecret != "" && c.tokenURL == ""
    ensures Choose(c) == (if c.customHeader != "" && c.customValue != "" then UseCustom else UseNone)
  {
  }

  /** An authenticator of one of the four kinds. */
  datatype Authenticator =
    | Basic(basic: BasicAuth)
    | Bearer(bearer: BearerAuth)
    | OAuth2(oauth: OAuth2ClientCredentials)
    | Custom(custom: CustomAuth)

  /**
   * `NewAuthenticator`: builds the chosen kind from its settings, or none; it
   * never fails, since OAuth2 is chosen only when its constructor's checks pass.
   */
  method NewAuthenticator(c: Config) returns (r: Result<Option<Authenticator>, AuthError>)
    ensures r.Success?
    ensures r.value.None? <==> Choose(c) == UseNone
    ensures Choose(c) == UseBasic ==> r.value == Some(Basic(BasicAuth(c.username, c.password)))
    ensures Choose(c) == UseBearer ==> r.value == Some(Bearer(BearerAuth(c.bearerToken)))
    ensures Choose(c) == UseCustom ==> r.value == Some(Custom(CustomAuth(c.customHeader, c.customValue)))
    ensures Choose(c) == UseOAuth2 ==>
      && r.value.Some? && r.value.value.OAuth2?
      && var o := r.value.value.oauth;
         && fresh(o) && o.token == "" && o.sent == []
         && o.clientID == c.clientID && o.clientSecret == c.clientSecret
         && o.tokenURL == c.tokenURL && o.scopes == c.scopes
  {
    if c.username != "" || c.password != "" {
      return Success(Some(Basic(BasicAuth(c.username, c.password))));
    }
    if c.bearerToken != "" {
      return Success(Some(Bearer(BearerAuth(c.bearerToken))));
    }
    if c.clientID != "" && c.clientSecret != "" && c.tokenURL != "" {
      var made := OAuth2ClientCredentials.New(c.clientID, c.clientSecret, c.tokenURL, c.scopes);
      match made {
        case Success(o) => return Success(Some(OAuth2(o)));
        case Failure(e) => return Failure(e);
      }
    }
    if c.customHeader != "" && c.customValue != "" {
      return Success(Some(Custom(CustomAuth(c.customHeader, c.customValue))));
    }
    return Success(None);
  }
}
