/**
 * The OAuth client of apps/decap-cms-oauth/src/oauth.ts: a configuration
 * record fixed when the client is made, the authorization request URL of
 * section 4.1.1 of RFC 6749, and the access token request of section
 * 4.1.3, with the HTTP round trip given as a parameter.
 *
 * The client is a value: it is built from its configuration and every
 * operation only reads it, so no operation can change the configuration
 * that a later one sees.
 */
module OAuth {
  import opened Wrappers
  import opened Text
  import Url
  import Json

  datatype Target = Target(tokenHost: string, tokenPath: string, authorizePath: string)

  datatype OAuthConfig = OAuthConfig(id: string, secret: string, target: Target)

  datatype OAuthClient = OAuthClient(config: OAuthConfig)

  datatype AuthorizeOptions = AuthorizeOptions(redirectUri: string, scope: string, state: string)

  /** Where the authorization endpoint lives: token host followed by authorize path. */
  function AuthorizeEndpoint(client: OAuthClient): string {
    client.config.target.tokenHost + client.config.target.authorizePath
  }

  /**
   * The authorization request URL. The option values and the client id
   * are spliced in as they are; nothing is percent-encoded.
   */
  function AuthorizeURL(client: OAuthClient, options: AuthorizeOptions): string {
    client.config.target.tokenHost + client.config.target.authorizePath
    + "?response_type=code&client_id=" + client.config.id
    + "&redirect_uri=" + options.redirectUri
    + "&scope=" + options.scope
    + "&state=" + options.state
  }

  /** The parameters of the authorization request, in the order the URL carries them. */
  function AuthorizeParams(client: OAuthClient, options: AuthorizeOptions): seq<Url.Param> {
    [ ("response_type", "code"),
      ("client_id", client.config.id),
      ("redirect_uri", options.redirectUri),
      ("scope", options.scope),
      ("state", options.state) ]
  }

  /** The five parameters rendered raw, in order, give the query part of the URL. */
  lemma AuthorizeQuery(client: OAuthClient, options: AuthorizeOptions)
    ensures Url.RenderQuery(AuthorizeParams(client, options))
            == "response_type=code&client_id=" + client.config.id + "&redirect_uri=" + options.redirectUri
               + "&scope=" + options.scope + "&state=" + options.state
  {
    var id, ru, sc, st := client.config.id, options.redirectUri, options.scope, options.state;
    var segs := Url.RenderParams(AuthorizeParams(client, options));
    JoinFive(segs);
    assert segs[0] == "response_type=code";
    assert segs[1] == "client_id=" + id;
    assert segs[2] == "redirect_uri=" + ru;
    assert segs[3] == "scope=" + sc;
    assert segs[4] == "state=" + st;
    QueryLiterals();
    Regroup("response_type=code", "&", "client_id=", id, "redirect_uri=", ru, "scope=", sc, "state=", st);
  }

  /** Five segments joined by `&`. */
  lemma JoinFive(segs: seq<string>)
    requires |segs| == 5
    ensures Join(segs, '&') == segs[0] + "&" + (segs[1] + "&" + (segs[2] + "&" + (segs[3] + "&" + segs[4])))
  {
    assert Join(segs[4..], '&') == segs[4];
    assert segs[3..][1..] == segs[4..];
    assert Join(segs[3..], '&') == segs[3] + "&" + segs[4];
    assert segs[2..][1..] == segs[3..];
    assert Join(segs[2..], '&') == segs[2] + "&" + (segs[3] + "&" + segs[4]);
    assert segs[1..][1..] == segs[2..];
    assert Join(segs[1..], '&') == segs[1] + "&" + (segs[2] + "&" + (segs[3] + "&" + segs[4]));
  }

  lemma QueryLiterals()
    ensures "response_type=code" + "&" + "client_id=" == "response_type=code&client_id="
    ensures "&" + "redirect_uri=" == "&redirect_uri="
    ensures "&" + "scope=" == "&scope="
    ensures "&" + "state=" == "&state="
  {
  }

  /** Moving the separators of a five-segment query next to the keys that follow them. */
  lemma Regroup(s0: string, amp: string, k1: string, id: string, k2: string, ru: string,
                k3: string, sc: string, k4: string, st: string)
    ensures s0 + amp + (k1 + id + amp + (k2 + ru + amp + (k3 + sc + amp + (k4 + st))))
            == (s0 + amp + k1) + id + (amp + k2) + ru + (amp + k3) + sc + (amp + k4) + st
  {
    var tail4 := k3 + sc + amp + (k4 + st);
    assert tail4 == k3 + sc + (amp + k4) + st;
    var tail3 := k2 + ru + amp + tail4;
    assert tail3 == k2 + ru + (amp + k3) + sc + (amp + k4) + st;
    var tail2 := k1 + id + amp + tail3;
    assert tail2 == k1 + id + (amp + k2) + ru + (amp + k3) + sc + (amp + k4) + st;
  }

  /** Putting an endpoint and a `?` in front of a query written out piece by piece. */
  lemma Prefix(e: string, qm: string, a: string, id: string, b: string, ru: string, c: string, sc: string, d: string, st: string)
    ensures e + qm + (a + id + b + ru + c + sc + d + st) == e + (qm + a) + id + b + ru + c + sc + d + st
  {
    var q := a + id + b + ru + c + sc + d + st;
    assert qm + q == (qm + a) + id + b + ru + c + sc + d + st;
  }

  /** The URL is the endpoint, a `?`, and the five parameters rendered raw, in the fixed order. */
  lemma AuthorizeURLIsRawQuery(client: OAuthClient, options: AuthorizeOptions)
    ensures AuthorizeURL(client, options)
            == AuthorizeEndpoint(client) + "?" + Url.RenderQuery(AuthorizeParams(client, options))
  {
    var id, ru, sc, st := client.config.id, options.redirectUri, options.scope, options.state;
    AuthorizeQuery(client, options);
    var q := Url.RenderQuery(AuthorizeParams(client, options));
    var e := AuthorizeEndpoint(client);
    Prefix(e, "?", "response_type=code&client_id=", id, "&redirect_uri=", ru, "&scope=", sc, "&state=", st);
    assert "?" + "response_type=code&client_id=" == "?response_type=code&client_id=";
  }

  /**
   * A raw query parser reads the five parameters back unchanged and in
   * order, provided no spliced value carries a `&` and the endpoint no `?`.
   */
  lemma AuthorizeURLParses(client: OAuthClient, options: AuthorizeOptions)
    requires '?' !in AuthorizeEndpoint(client)
    requires '&' !in client.config.id
    requires '&' !in options.redirectUri && '&' !in options.scope && '&' !in options.state
    ensures Url.ParseUrl(AuthorizeURL(client, options))
            == Url.ParsedUrl(AuthorizeEndpoint(client), AuthorizeParams(client, options))
  {
    AuthorizeURLIsRawQuery(client, options);
    Url.ParseRenderUrl(AuthorizeEndpoint(client), AuthorizeParams(client, options));
  }

  /**
   * The URL starts with the endpoint and `?response_type=code`, and the
   * redirect URI, scope and state each occur in it verbatim.
   */
  lemma AuthorizeURLSplicesVerbatim(client: OAuthClient, options: AuthorizeOptions)
    ensures AuthorizeEndpoint(client) + "?response_type=code&client_id=" <= AuthorizeURL(client, options)
    ensures Contains(AuthorizeURL(client, options), options.redirectUri)
    ensures Contains(AuthorizeURL(client, options), options.scope)
    ensures Contains(AuthorizeURL(client, options), options.state)
  {
    var url := AuthorizeURL(client, options);
    var head := AuthorizeEndpoint(client) + "?response_type=code&client_id=" + client.config.id + "&redirect_uri=";
    var i := |head|;
    assert url[i..i + |options.redirectUri|] == options.redirectUri;
    var j := i + |options.redirectUri| + |"&scope="|;
    assert url[j..j + |options.scope|] == options.scope;
    var k := j + |options.scope| + |"&state="|;
    assert url[k..k + |options.state|] == options.state;
  }

  /**
   * A redirect URI holding a `&` is cut there by a raw reader: the third
   * parameter read back is `redirect_uri` with only the part before it.
   */
  lemma AuthorizeURLCutsRedirect(client: OAuthClient, options: AuthorizeOptions, head: string, rest: string)
    requires '?' !in AuthorizeEndpoint(client) && '&' !in client.config.id && '&' !in head
    requires options.redirectUri == head + "&" + rest
    ensures var query := Url.ParseUrl(AuthorizeURL(client, options)).query;
            |query| >= 3 && query[2] == ("redirect_uri", head)
  {
    var segs := Url.RenderParams(AuthorizeParams(client, options));
    AuthorizeURLReadsQuery(client, options);
    AuthorizeSegments(client, options);
    Url.RenderParamCut("redirect_uri", head, rest);
    ThirdPieceCut(segs, Url.RenderParam(("redirect_uri", head)), rest, '&');
    Url.ParseRenderParam(("redirect_uri", head));
  }

  /** A raw reader takes everything after the endpoint's `?` as the query. */
  lemma AuthorizeURLReadsQuery(client: OAuthClient, options: AuthorizeOptions)
    requires '?' !in AuthorizeEndpoint(client)
    ensures Url.ParseUrl(AuthorizeURL(client, options)).query
            == Url.ParseQuery(Join(Url.RenderParams(AuthorizeParams(client, options)), '&'))
  {
    AuthorizeURLIsRawQuery(client, options);
    Url.ParseUrlAfterBase(AuthorizeEndpoint(client), Url.RenderQuery(AuthorizeParams(client, options)));
  }

  /** The first three rendered segments, and which of them can hold a `&`. */
  lemma AuthorizeSegments(client: OAuthClient, options: AuthorizeOptions)
    ensures var segs := Url.RenderParams(AuthorizeParams(client, options));
            && |segs| == 5
            && ('&' !in client.config.id ==> '&' !in segs[0] && '&' !in segs[1])
            && segs[2] == Url.RenderParam(("redirect_uri", options.redirectUri))
    ensures '=' !in "redirect_uri" && '&' !in "redirect_uri"
  {
    assert '&' !in "response_type=code" && '&' !in "client_id=";
  }

  /** The authorization URL reads neither the client secret nor the token path. */
  lemma AuthorizeURLIgnoresSecret(client: OAuthClient, secret: string, tokenPath: string, options: AuthorizeOptions)
    ensures var other := OAuthClient(client.config.(secret := secret,
                                                     target := client.config.target.(tokenPath := tokenPath)));
            AuthorizeURL(other, options) == AuthorizeURL(client, options)
  {
  }

  datatype TokenOptions = TokenOptions(code: string, redirectUri: string)

  datatype HttpRequest = HttpRequest(url: string, httpMethod: string, headers: seq<(string, string)>, body: string)

  /** The properties of the token request body, in the order they are written. */
  function TokenRequestFields(client: OAuthClient, options: TokenOptions): seq<(string, Option<string>)> {
    [ ("client_id", Some(client.config.id)),
      ("client_secret", Some(client.config.secret)),
      ("code", Some(options.code)),
      ("redirect_uri", Some(options.redirectUri)),
      ("grant_type", Some("authorization_code")) ]
  }

  /** The request the client posts to the token endpoint. */
  function TokenRequest(client: OAuthClient, options: TokenOptions): (request: HttpRequest)
    ensures request.url == client.config.target.tokenHost + client.config.target.tokenPath
    ensures request.httpMethod == "POST"
    ensures request.headers == [("Accept", "application/json"), ("Content-Type", "application/json")]
  {
    HttpRequest(client.config.target.tokenHost + client.config.target.tokenPath,
                "POST",
                [("Accept", "application/json"), ("Content-Type", "application/json")],
                Json.Stringify(TokenRequestFields(client, options)))
  }

  /**
   * The token request body, read back as JSON, has exactly the five
   * fields: the client credentials, the code and redirect URI unchanged,
   * and the grant type `authorization_code`.
   */
  lemma TokenRequestBody(client: OAuthClient, options: TokenOptions)
    ensures Json.ParseObject(TokenRequest(client, options).body)
            == Some([ ("client_id", client.config.id),
                      ("client_secret", client.config.secret),
                      ("code", options.code),
                      ("redirect_uri", options.redirectUri),
                      ("grant_type", "authorization_code") ])
  {
    var fields := TokenRequestFields(client, options);
    assert forall k :: 0 <= k < |fields| ==> fields[k].1.Some?;
    var defined := Json.Defined(fields);
    assert |defined| == 5;
    assert defined[0] == ("client_id", client.config.id);
    assert defined[1] == ("client_secret", client.config.secret);
    assert defined[2] == ("code", options.code);
    assert defined[3] == ("redirect_uri", options.redirectUri);
    assert defined[4] == ("grant_type", "authorization_code");
    var expected := [ ("client_id", client.config.id),
                      ("client_secret", client.config.secret),
                      ("code", options.code),
                      ("redirect_uri", options.redirectUri),
                      ("grant_type", "authorization_code") ];
    assert defined == expected;
    assert TokenRequest(client, options).body == Json.Stringify(fields);
    Json.ParseStringify(fields);
  }

  /** What the HTTP round trip gives: a rejection, or the string-valued properties of the JSON response. */
  datatype FetchResult = Rejected | Parsed(json: map<string, string>)

  /** `getToken` either throws or resolves to the `access_token` property, `undefined` when absent. */
  datatype TokenResult = Threw | Resolved(accessToken: Option<string>)

  /** Posts the token request once and returns the `access_token` of the parsed response. */
  function GetToken(client: OAuthClient, options: TokenOptions, fetch: HttpRequest -> FetchResult): (r: TokenResult)
    ensures r.Threw? <==> fetch(TokenRequest(client, options)).Rejected?
    ensures r.Resolved? ==>
              var json := fetch(TokenRequest(client, options)).json;
              (r.accessToken.Some? <==> "access_token" in json)
              && (r.accessToken.Some? ==> r.accessToken.value == json["access_token"])
  {
    match fetch(TokenRequest(client, options))
    case Rejected => Threw
    case Parsed(json) => Resolved(if "access_token" in json then Some(json["access_token"]) else None)
  }
}
