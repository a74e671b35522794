/**
 * The relay application of apps/decap-cms-oauth/src/index.tsx: a provider
 * gate in front of every route, `/auth`, which redirects the browser to
 * GitHub's authorization endpoint, and `/callback`, which exchanges the
 * code for an access token and answers with the page that hands the
 * token to the CMS window.
 *
 * A request is reduced to what the handlers read: the path, the
 * `provider` and `code` query values (`None` when absent) and the
 * hostname. The random `state` and the token endpoint's answer are
 * parameters. The result records the response and every token request
 * the relay sent while producing it.
 */
module Relay {
  import opened Wrappers
  import opened Text
  import Url
  import Json
  import opened OAuth
  import Html

  /** The two secrets the deployment provides. */
  datatype Env = Env(ghOAuthId: string, ghOAuthSecret: string)

  const GitHubTokenHost := "https://github.com"
  const GitHubTokenPath := "/login/oauth/access_token"
  const GitHubAuthorizePath := "/login/oauth/authorize"
  const Scope := "public_repo,user"
  const SuccessPrefix := "authorization:github:success:"

  /** The client every request builds: GitHub's endpoints and the deployment's credentials. */
  function CreateOAuth(env: Env): (client: OAuthClient)
    ensures AuthorizeEndpoint(client) == "https://github.com/login/oauth/authorize"
    ensures client.config.id == env.ghOAuthId && client.config.secret == env.ghOAuthSecret
  {
    AuthorizeEndpointUrl();
    OAuthClient(OAuthConfig(env.ghOAuthId, env.ghOAuthSecret,
                            Target(GitHubTokenHost, GitHubTokenPath, GitHubAuthorizePath)))
  }

  /** Where GitHub sends the browser back to: this host's `/callback`, keeping the provider query. */
  function RedirectUri(hostname: string): (uri: string)
    ensures "https://" <= uri
    ensures '&' !in hostname ==> '&' !in uri
  {
    "https://" + hostname + "/callback?provider=github"
  }

  datatype Request = Request(path: string, provider: Option<string>, code: Option<string>, hostname: string)

  /**
   * A plain-text body, or the authorizing page, given by the message its
   * script template holds before the `html` helper escapes it.
   */
  datatype Body = PlainText(text: string) | AuthorizingPage(message: string)

  datatype Response = Response(status: nat, location: Option<string>, body: Body)

  /** The response and the token requests sent on the way to it. */
  datatype Outcome = Outcome(response: Response, exchanges: seq<HttpRequest>)

  const InvalidProvider := Response(400, None, PlainText("Invalid provider"))
  const MissingCode := Response(400, None, PlainText("Missing code"))
  /** What the framework answers when no route matches. */
  const NotFound := Response(404, None, PlainText("404 Not Found"))
  /** What the framework answers when a handler throws. */
  const InternalError := Response(500, None, PlainText("Internal Server Error"))

  /** The gate lets a request through only when its `provider` query is exactly `github`. */
  predicate ProviderAccepted(provider: Option<string>) {
    provider == Some("github")
  }

  /** `/auth`: a 302 to the authorization URL for this host's redirect URI, the fixed scope and the given state. */
  function Auth(env: Env, hostname: string, state: string): Response {
    var url := AuthorizeURL(CreateOAuth(env), AuthorizeOptions(RedirectUri(hostname), Scope, state));
    Response(302, Some(url), PlainText("Redirecting..."))
  }

  /**
   * The message the script template holds before the `html` helper
   * escapes it: the prefix and `JSON.stringify({ token })`.
   */
  function SuccessMessage(token: Option<string>): (message: string)
    ensures SuccessPrefix <= message
  {
    SuccessPrefix + Json.Stringify([("token", token)])
  }

  /** `/callback`: the code check, then one token exchange, then the page. */
  function Callback(env: Env, request: Request, fetch: HttpRequest -> FetchResult): Outcome {
    if request.code.None? || request.code.value == "" then Outcome(MissingCode, [])
    else
      var client := CreateOAuth(env);
      var options := TokenOptions(request.code.value, RedirectUri(request.hostname));
      var sent := [TokenRequest(client, options)];
      match GetToken(client, options, fetch)
      case Threw => Outcome(InternalError, sent)
      case Resolved(token) => Outcome(Response(200, None, AuthorizingPage(SuccessMessage(token))), sent)
  }

  /** The application: the gate, then the route. */
  function Handle(env: Env, request: Request, state: string, fetch: HttpRequest -> FetchResult): (out: Outcome)
    ensures !ProviderAccepted(request.provider) ==> out == Outcome(InvalidProvider, [])
    ensures |out.exchanges| <= 1
    ensures out.exchanges != [] ==>
              request.path == "/callback" && request.code.Some? && request.code.value != ""
  {
    if !ProviderAccepted(request.provider) then Outcome(InvalidProvider, [])
    else if request.path == "/auth" then Outcome(Auth(env, request.hostname, state), [])
    else if request.path == "/callback" then Callback(env, request, fetch)
    else Outcome(NotFound, [])
  }

  lemma GitHubConstants(env: Env)
    ensures '?' !in AuthorizeEndpoint(CreateOAuth(env))
    ensures '&' !in Scope
    ensures GitHubTokenHost + GitHubTokenPath == "https://github.com/login/oauth/access_token"
  {
    EndpointHasNoQuery();
    ScopeHasNoAmpersand();
    TokenUrl();
    assert AuthorizeEndpoint(CreateOAuth(env)) == GitHubTokenHost + GitHubAuthorizePath;
  }

  lemma EndpointHasNoQuery()
    ensures '?' !in GitHubTokenHost + GitHubAuthorizePath
  {
    assert forall k :: 0 <= k < |GitHubTokenHost| ==> GitHubTokenHost[k] != '?';
    assert forall k :: 0 <= k < |GitHubAuthorizePath| ==> GitHubAuthorizePath[k] != '?';
    var e := GitHubTokenHost + GitHubAuthorizePath;
    assert forall k :: 0 <= k < |e| ==> e[k] != '?';
  }

  lemma ScopeHasNoAmpersand()
    ensures '&' !in Scope
  {
  }

  lemma AuthorizeEndpointUrl()
    ensures GitHubTokenHost + GitHubAuthorizePath == "https://github.com/login/oauth/authorize"
  {
  }

  lemma TokenUrl()
    ensures GitHubTokenHost + GitHubTokenPath == "https://github.com/login/oauth/access_token"
  {
  }

  /**
   * Whatever the client id, hostname and state, a request the gate lets
   * through to `/auth` gets a 302 to the authorization URL for this host's
   * callback URI, the fixed scope and the state, with body "Redirecting..."
   * and no token request. The Location starts with GitHub's endpoint and
   * `?response_type=code&client_id=`, and holds the callback URI and the
   * state verbatim.
   */
  lemma AuthAnswers(env: Env, request: Request, state: string, fetch: HttpRequest -> FetchResult)
    requires ProviderAccepted(request.provider) && request.path == "/auth"
    ensures var url := AuthorizeURL(CreateOAuth(env), AuthorizeOptions(RedirectUri(request.hostname), Scope, state));
            && Handle(env, request, state, fetch) == Outcome(Response(302, Some(url), PlainText("Redirecting...")), [])
            && "https://github.com/login/oauth/authorize" + "?response_type=code&client_id=" <= url
            && Contains(url, RedirectUri(request.hostname))
            && Contains(url, state)
  {
    var client := CreateOAuth(env);
    AuthorizeURLSplicesVerbatim(client, AuthorizeOptions(RedirectUri(request.hostname), Scope, state));
    GitHubConstants(env);
  }

  /**
   * A request the gate lets through to `/auth` is redirected (302, body
   * "Redirecting...") to GitHub's authorization endpoint with, read back
   * in order, `response_type=code`, the client id, this host's callback
   * URI unencoded, the fixed scope and the state; no token is requested.
   */
  lemma AuthRedirects(env: Env, request: Request, state: string, fetch: HttpRequest -> FetchResult)
    requires ProviderAccepted(request.provider) && request.path == "/auth"
    requires '&' !in env.ghOAuthId && '&' !in request.hostname && '&' !in state
    ensures var out := Handle(env, request, state, fetch);
            && out.exchanges == []
            && out.response.status == 302
            && out.response.body == PlainText("Redirecting...")
            && out.response.location.Some?
            && "https://github.com/login/oauth/authorize" + "?response_type=code&client_id=" <= out.response.location.value
            && Url.ParseUrl(out.response.location.value)
               == Url.ParsedUrl("https://github.com/login/oauth/authorize",
                                [ ("response_type", "code"),
                                  ("client_id", env.ghOAuthId),
                                  ("redirect_uri", "https://" + request.hostname + "/callback?provider=github"),
                                  ("scope", "public_repo,user"),
                                  ("state", state) ])
  {
    var client := CreateOAuth(env);
    var options := AuthorizeOptions(RedirectUri(request.hostname), Scope, state);
    var url := AuthorizeURL(client, options);
    AuthAnswers(env, request, state, fetch);
    GitHubConstants(env);
    AuthorizeURLParses(client, options);
    assert AuthorizeParams(client, options)
           == [ ("response_type", "code"),
                ("client_id", env.ghOAuthId),
                ("redirect_uri", "https://" + request.hostname + "/callback?provider=github"),
                ("scope", "public_repo,user"),
                ("state", state) ];
  }

  /** With the gate passed, `/callback` without a code, or with an empty one, is refused before any exchange. */
  lemma CallbackNeedsCode(env: Env, request: Request, state: string, fetch: HttpRequest -> FetchResult)
    requires ProviderAccepted(request.provider) && request.path == "/callback"
    ensures var out := Handle(env, request, state, fetch);
            (out.exchanges == []) <==> (request.code.None? || request.code.value == "")
    ensures request.code.None? || request.code.value == "" ==>
              Handle(env, request, state, fetch) == Outcome(MissingCode, [])
  {
  }

  /**
   * With the gate passed and a non-empty code, `/callback` posts exactly
   * one request to GitHub's token endpoint whose JSON body carries the
   * credentials, the code, this host's callback URI and the grant type;
   * then it answers 200 with the success message for the returned token,
   * or 500 when the exchange throws.
   */
  lemma CallbackExchanges(env: Env, request: Request, state: string, fetch: HttpRequest -> FetchResult)
    requires ProviderAccepted(request.provider) && request.path == "/callback"
    requires request.code.Some? && request.code.value != ""
    ensures var out := Handle(env, request, state, fetch);
            && |out.exchanges| == 1
            && out.exchanges[0].url == "https://github.com/login/oauth/access_token"
            && out.exchanges[0].httpMethod == "POST"
            && out.exchanges[0].headers == [("Accept", "application/json"), ("Content-Type", "application/json")]
            && Json.ParseObject(out.exchanges[0].body)
               == Some([ ("client_id", env.ghOAuthId),
                         ("client_secret", env.ghOAuthSecret),
                         ("code", request.code.value),
                         ("redirect_uri", "https://" + request.hostname + "/callback?provider=github"),
                         ("grant_type", "authorization_code") ])
            && match fetch(out.exchanges[0])
               case Rejected => out.response == InternalError
               case Parsed(json) =>
                 out.response == Response(200, None, AuthorizingPage(SuccessMessage(
                   if "access_token" in json then Some(json["access_token"]) else None)))
  {
    var client := CreateOAuth(env);
    var options := TokenOptions(request.code.value, RedirectUri(request.hostname));
    var sent := TokenRequest(client, options);
    var out := Handle(env, request, state, fetch);
    assert out == Callback(env, request, fetch);
    assert out.exchanges == [sent];
    GitHubConstants(env);
    TokenRequestBody(client, options);
    match fetch(sent)
    case Rejected =>
      assert GetToken(client, options, fetch) == Threw;
    case Parsed(json) =>
      assert GetToken(client, options, fetch)
             == Resolved(if "access_token" in json then Some(json["access_token"]) else None);
  }

  /**
   * For one hostname, the redirect URI carried by the `/auth` redirect and
   * the one sent in the `/callback` token request are the same string.
   */
  lemma RedirectUrisAgree(env: Env, hostname: string, state: string, code: string,
                          stateAtCallback: string, fetch: HttpRequest -> FetchResult)
    requires '&' !in env.ghOAuthId && '&' !in hostname && '&' !in state
    requires code != ""
    ensures var auth := Handle(env, Request("/auth", Some("github"), None, hostname), state, fetch);
            var callback := Handle(env, Request("/callback", Some("github"), Some(code), hostname), stateAtCallback, fetch);
            && auth.response.location.Some?
            && |callback.exchanges| == 1
            && var sentToGitHub := Url.ParseUrl(auth.response.location.value).query;
               var sentToTokenEndpoint := Json.ParseObject(callback.exchanges[0].body);
               && |sentToGitHub| == 5 && sentToTokenEndpoint.Some? && |sentToTokenEndpoint.value| == 5
               && sentToGitHub[2] == sentToTokenEndpoint.value[3] == ("redirect_uri", RedirectUri(hostname))
  {
    AuthRedirects(env, Request("/auth", Some("github"), None, hostname), state, fetch);
    CallbackExchanges(env, Request("/callback", Some("github"), Some(code), hostname), stateAtCallback, fetch);
  }

  /**
   * For every hostname, the `/auth` redirect and the `/callback` token
   * request are built from the same callback URI: the Location holds it
   * verbatim, and the token request body reads back with it as its
   * `redirect_uri`.
   */
  lemma RedirectUriShared(env: Env, hostname: string, state: string, code: string,
                          stateAtCallback: string, fetch: HttpRequest -> FetchResult)
    requires code != ""
    ensures var auth := Handle(env, Request("/auth", Some("github"), None, hostname), state, fetch);
            var callback := Handle(env, Request("/callback", Some("github"), Some(code), hostname), stateAtCallback, fetch);
            && auth.response.location
               == Some(AuthorizeURL(CreateOAuth(env), AuthorizeOptions(RedirectUri(hostname), Scope, state)))
            && callback.exchanges == [TokenRequest(CreateOAuth(env), TokenOptions(code, RedirectUri(hostname)))]
            && Contains(auth.response.location.value, RedirectUri(hostname))
            && var sentToTokenEndpoint := Json.ParseObject(callback.exchanges[0].body);
               sentToTokenEndpoint.Some? && |sentToTokenEndpoint.value| == 5
               && sentToTokenEndpoint.value[3] == ("redirect_uri", RedirectUri(hostname))
  {
    AuthAnswers(env, Request("/auth", Some("github"), None, hostname), state, fetch);
    CallbackSendsRedirectUri(env, Request("/callback", Some("github"), Some(code), hostname), stateAtCallback, fetch);
    CallbackBodyRedirectUri(env, Request("/callback", Some("github"), Some(code), hostname), stateAtCallback, fetch);
  }

  /** The one token request of `/callback` is built from this host's callback URI. */
  lemma CallbackSendsRedirectUri(env: Env, request: Request, state: string, fetch: HttpRequest -> FetchResult)
    requires ProviderAccepted(request.provider) && request.path == "/callback"
    requires request.code.Some? && request.code.value != ""
    ensures Handle(env, request, state, fetch).exchanges
            == [TokenRequest(CreateOAuth(env), TokenOptions(request.code.value, RedirectUri(request.hostname)))]
  {
  }

  /** The body of that request reads back with this host's callback URI as its `redirect_uri`. */
  lemma CallbackBodyRedirectUri(env: Env, request: Request, state: string, fetch: HttpRequest -> FetchResult)
    requires ProviderAccepted(request.provider) && request.path == "/callback"
    requires request.code.Some? && request.code.value != ""
    ensures var out := Handle(env, request, state, fetch);
            && |out.exchanges| == 1
            && var sent := Json.ParseObject(out.exchanges[0].body);
               sent.Some? && |sent.value| == 5 && sent.value[3] == ("redirect_uri", RedirectUri(request.hostname))
  {
    CallbackExchanges(env, request, state, fetch);
  }

  /** The gate runs first: a bad provider wins over a missing code, on every path. */
  lemma GateBeforeCodeCheck(env: Env, request: Request, state: string, fetch: HttpRequest -> FetchResult)
    requires !ProviderAccepted(request.provider) && request.code.None?
    ensures Handle(env, request, state, fetch).response.body == PlainText("Invalid provider")
  {
  }

  /** A token with nothing to escape is carried as `{"token":"<token>"}`; an absent one as `{}`. */
  lemma SuccessMessageText(token: string)
    requires forall k :: 0 <= k < |token| ==> !Json.NeedsEscape(token[k])
    ensures SuccessMessage(Some(token)) == "authorization:github:success:{\"token\":\"" + token + "\"}"
    ensures SuccessMessage(None) == "authorization:github:success:{}"
  {
    TokenObject(token);
    SuccessLiterals();
    PrefixObject(SuccessPrefix, "{\"token\":\"", token, "\"}");
    NoTokenObject();
  }

  lemma SuccessLiterals()
    ensures SuccessPrefix + "{\"token\":\"" == "authorization:github:success:{\"token\":\""
    ensures SuccessPrefix + "{}" == "authorization:github:success:{}"
  {
  }

  lemma PrefixObject(prefix: string, open: string, token: string, close: string)
    ensures prefix + (open + token + close) == prefix + open + token + close
  {
  }

  /** An undefined token is dropped: the object is `{}`. */
  lemma NoTokenObject()
    ensures Json.Stringify([("token", None)]) == "{}"
  {
    assert Json.Defined([("token", None)]) == [];
  }

  lemma TokenObject(token: string)
    requires forall k :: 0 <= k < |token| ==> !Json.NeedsEscape(token[k])
    ensures Json.Stringify([("token", Some(token))]) == "{\"token\":\"" + token + "\"}"
  {
    var fields := [("token", Some(token))];
    assert Json.Defined(fields) == [("token", token)];
    assert forall k :: 0 <= k < |"token"| ==> !Json.NeedsEscape("token"[k]);
    Json.QuoteVerbatim("token");
    var key := Json.Quote("token");
    assert key == "\"token\"";
    Json.QuoteVerbatim(token);
    var quoted := Json.Quote(token);
    assert quoted == "\"" + token + "\"";
    assert Json.Stringify(fields) == "{" + (key + ":" + quoted) + "}";
    TokenObjectPieces();
    Assemble(Json.Stringify(fields), "{", key, ":", "\"", token, "}", "{\"token\":\"", "\"}");
  }

  lemma TokenObjectPieces()
    ensures "{" + "\"token\"" + ":" + "\"" == "{\"token\":\""
    ensures "\"" + "}" == "\"}"
  {
  }

  lemma Assemble(s: string, open: string, key: string, colon: string, quote: string, token: string, close: string,
                 prefix: string, suffix: string)
    requires s == open + (key + colon + (quote + token + quote)) + close
    requires open + key + colon + quote == prefix
    requires quote + close == suffix
    ensures s == prefix + token + suffix
  {
    assert s == (open + key + colon + quote) + token + (quote + close);
  }

  /** Whatever the token, the CMS reads it back from the JSON after the prefix. */
  lemma SuccessMessageCarriesToken(token: string)
    ensures var message := SuccessMessage(Some(token));
            Json.ParseObject(message[|SuccessPrefix|..]) == Some([("token", token)])
  {
    var fields := [("token", Some(token))];
    assert Json.Defined(fields) == [("token", token)];
    Json.ParseStringify(fields);
    var message := SuccessMessage(Some(token));
    assert message[|SuccessPrefix|..] == Json.Stringify(fields);
  }

  /** Nothing but the request and the token endpoint's answer shapes a `/callback` outcome; the state plays no part. */
  lemma CallbackIgnoresState(env: Env, request: Request, state1: string, state2: string, fetch: HttpRequest -> FetchResult)
    requires request.path == "/callback"
    ensures Handle(env, request, state1, fetch) == Handle(env, request, state2, fetch)
  {
  }

  /**
   * The message as the page's script actually carries it: the template
   * helper HTML-escapes the interpolated JSON, so no double quote of it
   * reaches the script.
   */
  function PageMessage(token: Option<string>): (message: string)
    ensures SuccessPrefix <= message
    ensures '"' !in message[|SuccessPrefix|..]
  {
    SuccessPrefix + Html.EscapeHtml(Json.Stringify([("token", token)]))
  }

  /** The escaped object starts `{&quot;`: its first member's opening quote is gone. */
  lemma EscapedTokenObject(token: string)
    ensures var escaped := Html.EscapeHtml(Json.Stringify([("token", Some(token))]));
            |escaped| >= 2 && escaped[0] == '{' && escaped[1] == '&'
  {
    var fields := [("token", Some(token))];
    var r := Json.RenderMembers(Json.Defined(fields));
    var s := Json.Stringify(fields);
    assert Json.Defined(fields) == [("token", token)];
    assert |r| >= 1 && r[0] == '"';
    assert s[0] == '{' && s[1] == '"';
    Html.EscapeHtmlOpenQuote(s);
  }

  /**
   * With a token, what follows the prefix in the page's message is not
   * the object the CMS expects: read as JSON, it fails at once.
   */
  lemma PageMessageUnreadable(token: string)
    ensures Json.ParseObject(PageMessage(Some(token))[|SuccessPrefix|..]) == None
  {
    var escaped := Html.EscapeHtml(Json.Stringify([("token", Some(token))]));
    EscapedTokenObject(token);
    assert PageMessage(Some(token))[|SuccessPrefix|..] == escaped;
    assert escaped[1..] != "}";
    assert Json.ReadMember(escaped[1..]) == None;
  }

  /**
   * The callback URI is spliced unencoded, so a hostname with a `&` cuts
   * it short for a raw reader of the Location: for `h1&h2`, the
   * `redirect_uri` read back is `https://h1`, not the URI the token
   * request sends.
   */
  lemma AmpersandHostCutsRedirect(env: Env, h1: string, h2: string, state: string)
    requires '&' !in env.ghOAuthId && '&' !in h1
    ensures var query := Url.ParseUrl(Auth(env, h1 + "&" + h2, state).location.value).query;
            && |query| >= 3
            && query[2] == ("redirect_uri", "https://" + h1)
            && query[2].1 != RedirectUri(h1 + "&" + h2)
  {
    var head, rest := "https://" + h1, h2 + "/callback?provider=github";
    assert RedirectUri(h1 + "&" + h2) == head + "&" + rest;
    assert '&' !in "https://";
    GitHubConstants(env);
    AuthorizeURLCutsRedirect(CreateOAuth(env), AuthorizeOptions(RedirectUri(h1 + "&" + h2), Scope, state), head, rest);
  }
}
