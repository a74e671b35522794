/**
 * The escaping the page template helper applies to an interpolated
 * string: `&`, `<`, `>`, `"` and `'` become character references, and
 * every other character is copied.
 */
module Html {

  /** One character as the template helper writes it. */
  function EscapeHtmlChar(c: char): (e: string)
    ensures |e| >= 1
    ensures '"' !in e && '<' !in e && '>' !in e && '\'' !in e
    ensures e == [c] <==> c != '&' && c != '<' && c != '>' && c != '"' && c != '\''
  {
    if c == '&' then "&amp;"
    else if c == '<' then "&lt;"
    else if c == '>' then "&gt;"
    else if c == '"' then "&quot;"
    else if c == '\'' then "&#39;"
    else [c]
  }

  /** A string as the template helper writes it: no double quote survives. */
  function EscapeHtml(s: string): (r: string)
    ensures |r| >= |s|
    ensures '"' !in r && '<' !in r
  {
    if |s| == 0 then "" else EscapeHtmlChar(s[0]) + EscapeHtml(s[1..])
  }

  /** A leading character is escaped on its own, ahead of the rest. */
  lemma EscapeHtmlCons(c: char, rest: string)
    ensures EscapeHtml([c] + rest) == EscapeHtmlChar(c) + EscapeHtml(rest)
  {
    assert ([c] + rest)[1..] == rest;
  }

  /** A string opening with `{"` is written opening with `{&`. */
  lemma EscapeHtmlOpenQuote(s: string)
    requires |s| >= 2 && s[0] == '{' && s[1] == '"'
    ensures |EscapeHtml(s)| >= 2 && EscapeHtml(s)[0] == '{' && EscapeHtml(s)[1] == '&'
  {
    assert s == [s[0]] + ([s[1]] + s[2..]);
    EscapeHtmlCons(s[0], [s[1]] + s[2..]);
    EscapeHtmlCons(s[1], s[2..]);
  }
}
