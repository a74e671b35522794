# Decap CMS OAuth relay and blog frontmatter checks, in Dafny

This project models two small pieces of logic from the site's repository.

The first is the GitHub OAuth relay used by Decap CMS (`apps/decap-cms-oauth`):
- the OAuth client, which holds a configuration record. It builds the authorization request URL (section 4.1.1 of RFC 6749) and the access token request (section 4.1.3 of RFC 6749);
- the relay application. A provider gate comes first. `/auth` redirects the browser to GitHub. `/callback` checks the code and exchanges it once for a token. It answers with a page whose script template holds the message `authorization:github:success:` followed by `JSON.stringify({ token })`, to be posted to the CMS window.

The second is the frontmatter schema of the blog collection, in its two versions:
- `apps/website/src/content.config.ts`, which has a required `repo` field;
- `src/content/config.ts`, which has no `repo` field.

Both use `firstLetterCapital`, a title check (split on one space, every piece passes) and a description check.

Everything in the core is pure, so the model is built from datatypes, functions and lemmas:

| file | module | what it holds |
|---|---|---|
| `wrappers.dfy` | `Wrappers` | `Option` |
| `text.dfy` | `Text` | `indexOf`, `split` and `join` on one separator character, and their round trips |
| `url.dfy` | `Url` | a raw query string: rendering `k=v&…` and reading it back |
| `json.dfy` | `Json` | `JSON.stringify` for flat objects of strings, with ECMAScript's string quoting, and a reader proved to invert it |
| `html.dfy` | `Html` | the character escaping of the page template helper |
| `oauth.dfy` | `OAuth` | the `OAuthClient` of `oauth.ts` |
| `relay.dfy` | `Relay` | the application of `index.tsx`, as one total function from a request to a response and the token requests sent |
| `frontmatter.dfy` | `Frontmatter` | `firstLetterCapital` over ASCII, the title and description checks, and the issues they report |
| `website_blog.dfy` | `WebsiteBlog` | the schema with `repo` |
| `legacy_blog.dfy` | `LegacyBlog` | the schema without `repo` |

The token endpoint's answer is a parameter of the model: a function from the request sent to "rejected" or to the parsed JSON. The random `state` of `/auth` is also a parameter. The hostname and the `provider` and `code` query values are fields of the request.

The OAuth client is a value. Its configuration is fixed when it is built, and both operations only read it. No operation can therefore change what a later one sees.

The redirect URI is spliced into the authorization URL verbatim (`oauth.ts:26`). It is not percent-encoded, as a query value normally would be; the model follows the code. `OAuth.AuthorizeURLSplicesVerbatim` and `Relay.AuthAnswers` state the consequence: the `/callback?provider=github` text appears raw in the URL. A raw reader of the query still gets every parameter back as long as no spliced value holds a `&`. When the hostname holds one, the reader cuts the callback URI there: for `a&b` it reads `redirect_uri` as `https://a` (`Relay.AmpersandHostCutsRedirect`).

## Model

| member | source | states |
|---|---|---|
| OAuth.AuthorizeQuery | apps/decap-cms-oauth/src/oauth.ts:26 | The five parameters rendered as `k=v` and joined by `&` give exactly the query text the template writes, in the order response_type, client_id, redirect_uri, scope, state |
| OAuth.AuthorizeURLIsRawQuery | apps/decap-cms-oauth/src/oauth.ts:23-26 | The authorize URL is token host + authorize path, then `?`, then the raw rendering of the five parameters |
| OAuth.AuthorizeURLParses | apps/decap-cms-oauth/src/oauth.ts:26 | If the endpoint has no `?` and no spliced value has a `&`, reading the URL back gives the endpoint and the five parameters unchanged and in order |
| OAuth.AuthorizeURLSplicesVerbatim | apps/decap-cms-oauth/src/oauth.ts:23-26 | The URL starts with the endpoint and `?response_type=code&client_id=`. The redirect URI, scope and state each occur in it verbatim |
| OAuth.AuthorizeURLIgnoresSecret | apps/decap-cms-oauth/src/oauth.ts:23-26 | Changing the client secret or the token path leaves the authorize URL unchanged |
| OAuth.TokenRequest | apps/decap-cms-oauth/src/oauth.ts:30-38 | The token request goes to token host + token path, with method POST and the headers `Accept: application/json` and `Content-Type: application/json`, in that order |
| OAuth.TokenRequestBody | apps/decap-cms-oauth/src/oauth.ts:39-45 | The body, read back as JSON, has exactly client_id, client_secret, code, redirect_uri and grant_type=`authorization_code`, in that order, with code and redirect URI unchanged |
| OAuth.GetToken | apps/decap-cms-oauth/src/oauth.ts:29-49 | Throws exactly when the exchange is rejected. Otherwise returns the response's `access_token`, or nothing when it has none |
| Relay.CreateOAuth | apps/decap-cms-oauth/src/index.tsx:11-21 | The client has GitHub's authorize endpoint and the deployment's id and secret |
| Relay.RedirectUri | apps/decap-cms-oauth/src/index.tsx:41 | The callback URI starts with `https://` and gets a `&` only from the hostname |
| Relay.SuccessMessage | apps/decap-cms-oauth/src/index.tsx:70 | The message in the script template starts with `authorization:github:success:` |
| Relay.Handle | apps/decap-cms-oauth/src/index.tsx:29-56 | A provider other than exactly `github` gives 400 "Invalid provider" with no exchange. At most one token request is sent, and only by `/callback` with a non-empty code |
| Relay.GitHubConstants | apps/decap-cms-oauth/src/index.tsx:15-19 | The authorize endpoint has no `?`, the scope has no `&`, and host + token path is GitHub's token URL |
| Relay.AuthAnswers | apps/decap-cms-oauth/src/index.tsx:37-49 | For every client id, hostname and state, `/auth` answers 302 "Redirecting..." with no exchange, and the Location is the authorization URL for `https://<host>/callback?provider=github`, scope `public_repo,user` and the state. It starts with `https://github.com/login/oauth/authorize?response_type=code&client_id=` and holds the callback URI and the state verbatim |
| Relay.AuthRedirects | apps/decap-cms-oauth/src/index.tsx:37-49 | When the client id, hostname and state hold no `&`: `/auth` answers 302 "Redirecting..." with no exchange. The Location starts with `https://github.com/login/oauth/authorize?response_type=code&client_id=` and reads back as the five parameters, with redirect_uri `https://<host>/callback?provider=github` and scope `public_repo,user` |
| Relay.CallbackNeedsCode | apps/decap-cms-oauth/src/index.tsx:52-56 | Past the gate, `/callback` sends no exchange exactly when the code is absent or empty, and then answers 400 "Missing code" |
| Relay.CallbackExchanges | apps/decap-cms-oauth/src/index.tsx:52-70 | With a non-empty code, exactly one POST goes to GitHub's token URL, asking for and sending JSON, with the credentials, the code, this host's callback URI and the grant type. The answer is 500 if the exchange throws, otherwise 200 with the success message for the returned token |
| Relay.RedirectUriShared | apps/decap-cms-oauth/src/index.tsx:40-62 | For every hostname, the `/auth` Location and the `/callback` token request are built from the same callback URI. The Location holds it verbatim, and the token request body reads back with it as `redirect_uri` |
| Relay.AmpersandHostCutsRedirect | apps/decap-cms-oauth/src/index.tsx:41 | For a hostname `h1&h2` (client id and `h1` without `&`), the raw reader of the `/auth` Location gives `redirect_uri` = `https://h1`, which differs from the URI the token request sends |
| OAuth.AuthorizeURLCutsRedirect | apps/decap-cms-oauth/src/oauth.ts:26 | A redirect URI `head&rest` (endpoint without `?`, client id and head without `&`) is read back as the third parameter `redirect_uri` = head |
| Relay.RedirectUrisAgree | apps/decap-cms-oauth/src/index.tsx:40-62 | When the client id, hostname and state hold no `&`: for one hostname, the redirect_uri in the `/auth` Location and the one in the `/callback` token request are the same string |
| Relay.GateBeforeCodeCheck | apps/decap-cms-oauth/src/index.tsx:29-35 | A bad provider with no code gets "Invalid provider", not "Missing code", on every path |
| Relay.TokenObject | apps/decap-cms-oauth/src/index.tsx:70 | For a token with nothing to escape, `JSON.stringify({ token })` is `{"token":"` + token + `"}` |
| Relay.SuccessMessageText | apps/decap-cms-oauth/src/index.tsx:59-70 | For a token with nothing to escape, the message is `authorization:github:success:{"token":"` + token + `"}`. An absent token gives `authorization:github:success:{}` |
| Relay.SuccessMessageCarriesToken | apps/decap-cms-oauth/src/index.tsx:70 | For every token, the JSON after the prefix reads back as exactly `{ token }` |
| Relay.PageMessage | apps/decap-cms-oauth/src/index.tsx:67-70 | The message the script carries once the template helper has escaped the interpolated JSON: it starts with the prefix, and no double quote follows it |
| Relay.PageMessageUnreadable | apps/decap-cms-oauth/src/index.tsx:67-70 | With a token, the escaped text after the prefix does not read as a JSON object at all |
| Html.EscapeHtml | apps/decap-cms-oauth/src/index.tsx:67-70 | The escaped string is at least as long as the original and holds no `"` and no `<` |
| Relay.CallbackIgnoresState | apps/decap-cms-oauth/src/index.tsx:52-62 | The `/callback` outcome does not depend on the state |
| Json.EscapeChar | apps/decap-cms-oauth/src/index.tsx:70 | A character is copied unchanged exactly when it is neither `"`, `\` nor a control character. Otherwise its escape starts with `\` |
| Json.EscapeVerbatim | apps/decap-cms-oauth/src/index.tsx:70 | A string with nothing to escape is its own escape |
| Json.QuoteVerbatim | apps/decap-cms-oauth/src/index.tsx:70 | A string with nothing to escape is quoted as itself between double quotes |
| Json.ReadEscaped | apps/decap-cms-oauth/src/index.tsx:70 | Reading an escaped string up to its closing quote gives the string back and stops right after the quote |
| Json.Defined | apps/decap-cms-oauth/src/oauth.ts:39-45 | An object whose properties are all defined keeps them all; one whose properties are all undefined keeps none |
| Json.DefinedSingle | apps/decap-cms-oauth/src/oauth.ts:39-45 | One property is kept with its value when defined and dropped when undefined |
| Json.DefinedAppend | apps/decap-cms-oauth/src/oauth.ts:39-45 | Dropping undefined properties from two runs of properties in sequence keeps each run's survivors, in order. With `Json.DefinedSingle` this gives: undefined ones dropped, the rest in their order |
| Json.ParseStringify | apps/decap-cms-oauth/src/oauth.ts:39-45 | Reading back what `JSON.stringify` writes gives every defined property, in order, unchanged |
| Url.ParseUrl | apps/decap-cms-oauth/src/oauth.ts:26 | The part before the first `?` has no `?` and is a prefix of the URL. The query is empty exactly when there is no `?` |
| Url.ParseRenderQuery | apps/decap-cms-oauth/src/oauth.ts:26 | Raw-rendered parameters whose keys have no `=` and whose keys and values have no `&` read back unchanged, in order |
| Url.ParseRenderUrl | apps/decap-cms-oauth/src/oauth.ts:26 | `base?query` reads back as the base and the parameters when the base has no `?` |
| Text.Split | apps/website/src/content.config.ts:13 | `split(" ")` gives at least one piece, and at most one more than the string has characters |
| Text.SplitSeparatorFree | apps/website/src/content.config.ts:13 | No piece of a split contains the separator |
| Text.JoinSplit | apps/website/src/content.config.ts:13 | Joining the pieces of a split with the separator gives the original string |
| Text.SplitJoin | apps/website/src/content.config.ts:13 | Splitting a join of separator-free pieces gives the pieces back |
| Frontmatter.ToUpper | apps/website/src/content.config.ts:5 | Upper-casing a character gives no lower-case letter, and changes the character exactly when it is lower-case |
| Frontmatter.UpperCase | apps/website/src/content.config.ts:5 | Upper-casing a string keeps its length and upper-cases every character |
| Frontmatter.CharAt | apps/website/src/content.config.ts:5 | `charAt(i)` is the one-character string at i, or `""` past the end |
| Frontmatter.FirstLetterCapital | apps/website/src/content.config.ts:4-5 | Fails exactly when the string starts with a lower-case letter. `""` and strings starting with a capital, digit or punctuation pass. The same function is at src/content/config.ts:3-4 |
| Frontmatter.TitleValidIff | apps/website/src/content.config.ts:11-15 | Every space-separated piece passes exactly when neither the first character nor any character right after a space is lower-case. Empty pieces from double spaces pass |
| Frontmatter.TitleImpliesDescription | apps/website/src/content.config.ts:11-18 | Every title that passes also passes as a description |
| Frontmatter.TitleIssues | apps/website/src/content.config.ts:11-15 | No issue exactly when the title is present and passes. Otherwise there is one `title` issue |
| Frontmatter.DescriptionIssues | apps/website/src/content.config.ts:16-18 | No issue exactly when the description is present and its first character is not lower-case, whatever follows. Otherwise there is one `description` issue |
| Frontmatter.RequiredIssues | apps/website/src/content.config.ts:22 | A plain string field reports nothing when present and `Required` when missing |
| Frontmatter.DoubleSpaceTitle | apps/website/src/content.config.ts:13 | `Hello  World`, with its empty middle piece, passes |
| Frontmatter.LowerCaseWordTitle | apps/website/src/content.config.ts:13 | `Hello world` fails |
| WebsiteBlog.Validate | apps/website/src/content.config.ts:9-23 | An entry is accepted exactly when title, description and repo are present and the title and description pass. The accepted entry holds the strings unchanged; a rejection carries one to three issues |
| WebsiteBlog.Issues | apps/website/src/content.config.ts:9-23 | The issue list is empty exactly when every field is present and passes |
| WebsiteBlog.IssuesPerField | apps/website/src/content.config.ts:10-23 | The issues reported for each field are exactly that field's own check, so no field's outcome affects another's |
| WebsiteBlog.LowerCaseInitialRejects | apps/website/src/content.config.ts:11-15 | A lower-case letter at the start of the title or after a space rejects the entry with "Use parcal case" |
| LegacyBlog.Validate | src/content/config.ts:8-21 | An entry is accepted exactly when title and description are present and pass. The accepted entry holds them unchanged |
| LegacyBlog.Issues | src/content/config.ts:8-21 | The issue list is empty exactly when both fields are present and pass |
| LegacyBlog.AgreesWithWebsite | src/content/config.ts:8-21 | With a repo present, the website schema accepts the same entries and reports the same issues. Without one, it always rejects with a repo `Required` issue |
| LegacyBlog.LowerCaseInitialRejects | src/content/config.ts:10-14 | One word with a lower-case initial, anywhere in the title, rejects the entry with "Use parcal case" |

## Left out

- Routing machinery: Hono's router, the middleware `next()` chain and the `Context` object. The handlers are one function, `Relay.Handle`.
- Hostname parsing: `new URL(...).hostname` is not modelled; the hostname is an input.
- Request method: `Relay.Handle` models GET requests only and does not take a method.
- Framework default answers: 404 for an unmatched path and 500 for a handler that throws. These are taken as the framework's defaults, "404 Not Found" and "Internal Server Error".
- `fetch`, `response.json()` and async/await are network I/O. The token endpoint is an oracle parameter that rejects or yields the string-valued properties of the parsed response. A response whose `access_token` is not a string is not modelled.
- `crypto.randomUUID()` is randomness, so the state is a parameter. That two `/auth` calls get different states is not modelled.
- Relay.SuccessMessage: the modelled string is the template text before the `html` helper runs, not the string the script posts. The helper's escaping is modelled separately, in `Relay.PageMessage`; see Findings.
- The JSX page and the `postMessage` and `addEventListener` script behaviour are not modelled. Neither is the decoding of backslash escapes in the script's string literal: it does not touch the leading `{&quot;` that `Relay.PageMessageUnreadable` turns on.
- `Json.Stringify` covers flat objects whose values are strings or `undefined`, which are the only objects the relay serialises. Lone surrogate code units are not modelled.
- Frontmatter.ToUpper: upper-casing is over ASCII only. JavaScript's Unicode `toUpperCase` (for example `ß` to `SS`) and UTF-16 `charAt` are not modelled.
- Frontmatter fields are each present as a string or missing. A field holding a non-string value, and zod's message for it, are not modelled.
- `pubDate` (`z.coerce.date()`), `heroImage` (`image()`), unknown keys and the `glob` loader are not modelled. They are date handling and library calls.
- The configuration files (`astro.config.ts`, `uno.config.ts`) hold data, not logic.

## Findings

| source | as written | input that shows it | evidently intended | confidence | as-written member | corrected member |
|---|---|---|---|---|---|---|
| apps/decap-cms-oauth/src/index.tsx:67-70 | `JSON.stringify({ token })` is interpolated into an `html` template, whose helper escapes `"` to `&quot;`. The script's string literal then holds `{&quot;token&quot;:…}` after the prefix, which is not JSON | any token, for example `abc`: the literal reads `authorization:github:success:{&quot;token&quot;:&quot;abc&quot;}` | the CMS receives the prefix followed by the JSON object `{"token":"abc"}` | medium; rests on the helper escaping interpolated strings; not executed | Relay.PageMessageUnreadable | Relay.SuccessMessageCarriesToken |
