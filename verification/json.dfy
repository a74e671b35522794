/**
 * `JSON.stringify` on a flat object whose values are strings or
 * `undefined`, which is every object the relay serialises (the token
 * request body and `{ token }`). Strings are quoted as ECMAScript's
 * QuoteJSONString does (section 25.5.2.3 of ECMA-262); properties whose
 * value is `undefined` are omitted. A reader for this output is given
 * alongside, and the two are proved inverse.
 */
module Json {
  import opened Wrappers

  /** A lower-case hexadecimal digit, as QuoteJSONString writes them. */
  function HexDigit(n: nat): (c: char)
    requires n < 16
    ensures HexValue(c) == Some(n)
  {
    if n < 10 then ('0' as int + n) as char else ('a' as int + n - 10) as char
  }

  /** The value of a hexadecimal digit of either case. */
  function HexValue(c: char): (r: Option<nat>)
    ensures r.Some? ==> r.value < 16
  {
    if '0' <= c <= '9' then Some(c as int - '0' as int)
    else if 'a' <= c <= 'f' then Some(c as int - 'a' as int + 10)
    else if 'A' <= c <= 'F' then Some(c as int - 'A' as int + 10)
    else None
  }

  /** Characters QuoteJSONString does not copy through unchanged. */
  predicate NeedsEscape(c: char) {
    c == '"' || c == '\\' || c as int < 0x20
  }

  /** One character as it appears between the quotes of a JSON string. */
  function EscapeChar(c: char): (e: string)
    ensures |e| >= 1
    ensures e == [c] <==> !NeedsEscape(c)
    ensures NeedsEscape(c) ==> e[0] == '\\'
  {
    if c == '"' then "\\\""
    else if c == '\\' then "\\\\"
    else if c as int == 0x08 then "\\b"
    else if c as int == 0x09 then "\\t"
    else if c as int == 0x0A then "\\n"
    else if c as int == 0x0C then "\\f"
    else if c as int == 0x0D then "\\r"
    else if c as int < 0x20 then "\\u00" + [HexDigit(c as int / 16), HexDigit(c as int % 16)]
    else [c]
  }

  function Escape(s: string): string {
    if |s| == 0 then "" else EscapeChar(s[0]) + Escape(s[1..])
  }

  /** QuoteJSONString: the escaped characters between double quotes. */
  function Quote(s: string): string {
    "\"" + Escape(s) + "\""
  }

  /** A string with nothing to escape is its own escape. */
  lemma {:induction false} EscapeVerbatim(s: string)
    requires forall k :: 0 <= k < |s| ==> !NeedsEscape(s[k])
    ensures Escape(s) == s
    decreases |s|
  {
    if |s| > 0 {
      assert !NeedsEscape(s[0]);
      EscapeVerbatim(s[1..]);
      assert s == [s[0]] + s[1..];
    }
  }

  /** A string with nothing to escape is quoted as itself between double quotes. */
  lemma QuoteVerbatim(s: string)
    requires forall k :: 0 <= k < |s| ==> !NeedsEscape(s[k])
    ensures Quote(s) == "\"" + s + "\""
  {
    EscapeVerbatim(s);
  }

  /** The character an escape sequence stands for, and how many characters after the backslash it takes. */
  function Unescape(u: string): (r: Option<(char, nat)>)
    ensures r.Some? ==> 1 <= r.value.1 <= |u|
  {
    if |u| == 0 then None
    else if u[0] == '"' then Some(('"', 1))
    else if u[0] == '\\' then Some(('\\', 1))
    else if u[0] == '/' then Some(('/', 1))
    else if u[0] == 'b' then Some((0x08 as char, 1))
    else if u[0] == 't' then Some((0x09 as char, 1))
    else if u[0] == 'n' then Some((0x0A as char, 1))
    else if u[0] == 'f' then Some((0x0C as char, 1))
    else if u[0] == 'r' then Some((0x0D as char, 1))
    else if u[0] == 'u' && |u| >= 5 then
      match (HexValue(u[1]), HexValue(u[2]), HexValue(u[3]), HexValue(u[4]))
      case (Some(a), Some(b), Some(c), Some(d)) =>
        var n := ((a * 16 + b) * 16 + c) * 16 + d;
        if 0xD800 <= n < 0xE000 then None else Some((n as char, 5))
      case _ => None
    else None
  }

  /**
   * Reads the characters of a JSON string up to its closing quote (the
   * opening one already consumed); gives the value and what follows.
   */
  function ReadString(t: string): (r: Option<(string, string)>)
    ensures r.Some? ==> |r.value.1| < |t|
    decreases |t|
  {
    if |t| == 0 then None
    else if t[0] == '"' then Some(("", t[1..]))
    else if t[0] == '\\' then
      match Unescape(t[1..])
      case None => None
      case Some((c, n)) =>
        match ReadString(t[1 + n..])
        case None => None
        case Some((v, rest)) => Some(([c] + v, rest))
    else if t[0] as int < 0x20 then None
    else
      match ReadString(t[1..])
      case None => None
      case Some((v, rest)) => Some(([t[0]] + v, rest))
  }

  lemma UnescapeEscapeChar(c: char, tail: string)
    requires NeedsEscape(c)
    ensures Unescape(EscapeChar(c)[1..] + tail) == Some((c, |EscapeChar(c)| - 1))
  {
    var e := EscapeChar(c);
    if c != '"' && c != '\\' && c as int !in {0x08, 0x09, 0x0A, 0x0C, 0x0D} {
      var u := e[1..] + tail;
      assert u[..5] == ['u', '0', '0', HexDigit(c as int / 16), HexDigit(c as int % 16)];
    }
  }

  /** `c` in front of the value a read produced. */
  function Prepend(c: char, r: Option<(string, string)>): Option<(string, string)> {
    match r
    case None => None
    case Some((v, rest)) => Some(([c] + v, rest))
  }

  /** One step of `ReadString` over an escape sequence. */
  lemma ReadStringEscapeStep(t: string, c: char, n: nat)
    requires |t| > 0 && t[0] == '\\'
    requires Unescape(t[1..]) == Some((c, n))
    ensures ReadString(t) == Prepend(c, ReadString(t[1 + n..]))
  {
  }

  /** One step of `ReadString` over a character copied as it is. */
  lemma ReadStringPlainStep(t: string)
    requires |t| > 0 && !NeedsEscape(t[0])
    ensures ReadString(t) == Prepend(t[0], ReadString(t[1..]))
  {
  }

  /** Reading one escaped character consumes exactly its escape. */
  lemma ReadEscapeChar(c: char, tail: string)
    ensures ReadString(EscapeChar(c) + tail) == Prepend(c, ReadString(tail))
  {
    var e := EscapeChar(c);
    if NeedsEscape(c) {
      UnescapeEscapeChar(c, tail);
      ReadEscapeSequence(c, e, tail);
    } else {
      ReadPlainChar(c, e, tail);
    }
  }

  /** An escape sequence for `c` in front of `tail` reads as `c`, then `tail`. */
  lemma ReadEscapeSequence(c: char, e: string, tail: string)
    requires |e| >= 1 && e[0] == '\\'
    requires Unescape(e[1..] + tail) == Some((c, |e| - 1))
    ensures ReadString(e + tail) == Prepend(c, ReadString(tail))
  {
    var t := e + tail;
    assert t[1..] == e[1..] + tail;
    assert t[1 + (|e| - 1)..] == tail;
    ReadStringEscapeStep(t, c, |e| - 1);
  }

  /** A character copied as it is, in front of `tail`, reads as itself, then `tail`. */
  lemma ReadPlainChar(c: char, e: string, tail: string)
    requires e == [c] && !NeedsEscape(c)
    ensures ReadString(e + tail) == Prepend(c, ReadString(tail))
  {
    var t := e + tail;
    assert t[0] == c && t[1..] == tail;
    ReadStringPlainStep(t);
  }

  /** Reading back an escaped string stops at the quote after it and recovers the string. */
  lemma {:induction false} ReadEscaped(s: string, rest: string)
    ensures ReadString(Escape(s) + "\"" + rest) == Some((s, rest))
    decreases |s|
  {
    if |s| == 0 {
      assert Escape(s) + "\"" + rest == "\"" + rest;
    } else {
      var e0, er := EscapeChar(s[0]), Escape(s[1..]);
      var tail := er + "\"" + rest;
      ReadEscaped(s[1..], rest);
      assert Escape(s) == e0 + er;
      assert e0 + er + "\"" + rest == e0 + tail;
      ReadEscapeChar(s[0], tail);
      assert s == [s[0]] + s[1..];
    }
  }

  type Member = (string, string)

  /** The properties `JSON.stringify` writes: those whose value is not `undefined`, in order. */
  function Defined(fields: seq<(string, Option<string>)>): (ms: seq<Member>)
    ensures |ms| <= |fields|
    ensures (forall k :: 0 <= k < |fields| ==> fields[k].1.Some?) ==>
              |ms| == |fields| && forall k :: 0 <= k < |fields| ==> ms[k] == (fields[k].0, fields[k].1.value)
    ensures (forall k :: 0 <= k < |fields| ==> fields[k].1.None?) ==> ms == []
  {
    if |fields| == 0 then []
    else
      match fields[0].1
      case None => Defined(fields[1..])
      case Some(v) => [(fields[0].0, v)] + Defined(fields[1..])
  }

  /** One property: kept with its value when defined, dropped when `undefined`. */
  lemma DefinedSingle(key: string, value: Option<string>)
    ensures Defined([(key, value)]) == if value.Some? then [(key, value.value)] else []
  {
  }

  /** Dropping undefined properties works piecewise: on a concatenation it keeps each part's survivors in order. */
  lemma {:induction false} DefinedAppend(a: seq<(string, Option<string>)>, b: seq<(string, Option<string>)>)
    ensures Defined(a + b) == Defined(a) + Defined(b)
    decreases |a|
  {
    if |a| == 0 {
      assert a + b == b;
    } else {
      assert (a + b)[0] == a[0];
      assert (a + b)[1..] == a[1..] + b;
      DefinedAppend(a[1..], b);
    }
  }

  function RenderMember(m: Member): string {
    Quote(m.0) + ":" + Quote(m.1)
  }

  function RenderMembers(ms: seq<Member>): (r: string)
    ensures |ms| >= 1 ==> |r| >= 1 && r[0] == '"'
  {
    if |ms| == 0 then ""
    else if |ms| == 1 then RenderMember(ms[0])
    else RenderMember(ms[0]) + "," + RenderMembers(ms[1..])
  }

  /** `JSON.stringify` of an object with these properties, in insertion order, without whitespace. */
  function Stringify(fields: seq<(string, Option<string>)>): string {
    "{" + RenderMembers(Defined(fields)) + "}"
  }

  /** Reads one `"key":"value"` member; gives it and what follows. */
  function ReadMember(t: string): (r: Option<(Member, string)>)
    ensures r.Some? ==> |r.value.1| < |t|
  {
    if |t| == 0 || t[0] != '"' then None
    else
      match ReadString(t[1..])
      case None => None
      case Some((k, t1)) =>
        if |t1| < 2 || t1[0] != ':' || t1[1] != '"' then None
        else
          match ReadString(t1[2..])
          case None => None
          case Some((v, t2)) => Some(((k, v), t2))
  }

  /** Reads members separated by `,` up to the closing `}`. */
  function ReadMembers(t: string): Option<seq<Member>>
    decreases |t|
  {
    match ReadMember(t)
    case None => None
    case Some((m, rest)) =>
      if rest == "}" then Some([m])
      else if |rest| > 0 && rest[0] == ',' then
        match ReadMembers(rest[1..])
        case None => None
        case Some(ms) => Some([m] + ms)
      else None
  }

  /** Reads an object in the form `Stringify` writes. */
  function ParseObject(s: string): Option<seq<Member>> {
    if |s| < 2 || s[0] != '{' then None
    else if s[1..] == "}" then Some([])
    else ReadMembers(s[1..])
  }

  /** Reading one rendered member consumes exactly that member. */
  lemma ReadRenderedMember(m: Member, tail: string)
    ensures ReadMember(RenderMember(m) + tail) == Some((m, tail))
  {
    var q1 := Escape(m.1) + "\"" + tail;
    var t1 := ":\"" + q1;
    var q0 := Escape(m.0) + "\"" + t1;
    var t := RenderMember(m) + tail;
    MemberShape(Escape(m.0), Escape(m.1), tail);
    assert t == "\"" + q0;
    ReadEscaped(m.0, t1);
    ReadEscaped(m.1, tail);
    ReadMemberParts(t, q0, t1, q1, m, tail);
  }

  /** A rendered member, with the quotes moved next to what they close or open. */
  lemma MemberShape(e0: string, e1: string, tail: string)
    ensures "\"" + e0 + "\"" + ":" + ("\"" + e1 + "\"") + tail
            == "\"" + (e0 + "\"" + (":\"" + (e1 + "\"" + tail)))
  {
    assert ":" + "\"" == ":\"";
    var q1 := e1 + "\"" + tail;
    assert "\"" + e0 + "\"" + ":" + ("\"" + e1 + "\"") + tail
           == "\"" + e0 + "\"" + (":" + "\"") + q1;
  }

  /** `ReadMember` on text whose parts read as a key, `:"`, and a value. */
  lemma ReadMemberParts(t: string, q0: string, t1: string, q1: string, m: Member, tail: string)
    requires t == "\"" + q0 && t1 == ":\"" + q1
    requires ReadString(q0) == Some((m.0, t1))
    requires ReadString(q1) == Some((m.1, tail))
    ensures ReadMember(t) == Some((m, tail))
  {
    assert t[1..] == q0;
    assert t1[2..] == q1;
  }

  lemma RenderMembersCons(ms: seq<Member>)
    requires |ms| >= 2
    ensures RenderMembers(ms) + "}" == RenderMember(ms[0]) + ("," + (RenderMembers(ms[1..]) + "}"))
  {
  }

  lemma ReadMembersLast(t: string, m: Member)
    requires ReadMember(t) == Some((m, "}"))
    ensures ReadMembers(t) == Some([m])
  {
  }

  lemma ReadMembersNext(t: string, m: Member, rest: string, ms: seq<Member>)
    requires ReadMember(t) == Some((m, "," + rest))
    requires ReadMembers(rest) == Some(ms)
    ensures ReadMembers(t) == Some([m] + ms)
  {
    assert ("," + rest)[1..] == rest;
  }

  /** A rendered first member, a comma and text that reads as the other members read as all of them. */
  lemma ReadMembersStep(ms: seq<Member>, t: string, rest: string)
    requires |ms| >= 2
    requires t == RenderMember(ms[0]) + ("," + rest)
    requires ReadMembers(rest) == Some(ms[1..])
    ensures ReadMembers(t) == Some(ms)
  {
    ReadRenderedMember(ms[0], "," + rest);
    ReadMembersNext(t, ms[0], rest, ms[1..]);
    assert ms == [ms[0]] + ms[1..];
  }

  lemma {:induction false} ReadRenderedMembers(ms: seq<Member>)
    requires |ms| >= 1
    ensures ReadMembers(RenderMembers(ms) + "}") == Some(ms)
    decreases |ms|
  {
    if |ms| == 1 {
      ReadRenderedMember(ms[0], "}");
      ReadMembersLast(RenderMember(ms[0]) + "}", ms[0]);
      assert ms == [ms[0]];
    } else {
      var rest := RenderMembers(ms[1..]) + "}";
      RenderMembersCons(ms);
      ReadRenderedMembers(ms[1..]);
      ReadMembersStep(ms, RenderMembers(ms) + "}", rest);
    }
  }

  /** Parsing what `Stringify` writes gives back every defined property, in order, unchanged. */
  lemma ParseStringify(fields: seq<(string, Option<string>)>)
    ensures ParseObject(Stringify(fields)) == Some(Defined(fields))
  {
    var ms := Defined(fields);
    var r := RenderMembers(ms);
    var s := Stringify(fields);
    assert s == "{" + r + "}";
    assert s[0] == '{' && s[1..] == r + "}";
    if |ms| >= 1 {
      assert s[1..][0] == '"';
      ReadRenderedMembers(ms);
    } else {
      assert r == "";
    }
  }
}
