/**
 * The frontmatter checks of the blog collection, which
 * apps/website/src/content.config.ts and src/content/config.ts define in
 * the same words: `firstLetterCapital`, the title check (split on one
 * space, every piece passes) and the description check (the whole string
 * passes). Upper-casing is modelled over ASCII.
 */
module Frontmatter {
  import opened Wrappers
  import opened Text

  predicate IsLower(c: char) {
    'a' <= c <= 'z'
  }

  /** `toUpperCase` of one character: a lower-case letter becomes its capital, anything else stays. */
  function ToUpper(c: char): (u: char)
    ensures !IsLower(u)
    ensures u == c <==> !IsLower(c)
    ensures IsLower(c) ==> 'A' <= u <= 'Z'
  {
    if IsLower(c) then (c as int - ('a' as int - 'A' as int)) as char else c
  }

  /** `toUpperCase` of a string, character by character. */
  function UpperCase(s: string): (r: string)
    ensures |r| == |s|
    ensures forall i :: 0 <= i < |s| ==> r[i] == ToUpper(s[i])
  {
    if |s| == 0 then "" else [ToUpper(s[0])] + UpperCase(s[1..])
  }

  /** `charAt(i)`: the one-character string at `i`, or the empty string past the end. */
  function CharAt(s: string, i: nat): (r: string)
    ensures i < |s| ==> r == [s[i]]
    ensures i >= |s| ==> r == ""
  {
    if i < |s| then [s[i]] else ""
  }

  /**
   * `firstLetterCapital`: the first character equals its own upper-case
   * form. It fails exactly when the string starts with a lower-case
   * letter; the empty string passes.
   */
  function FirstLetterCapital(s: string): (ok: bool)
    ensures ok <==> (|s| == 0 || !IsLower(s[0]))
  {
    CharAt(s, 0) == UpperCase(CharAt(s, 0))
  }

  /** The title check: `title.split(" ").every(firstLetterCapital)`. */
  predicate TitleValid(title: string) {
    var words := Split(title, ' ');
    forall k :: 0 <= k < |words| ==> FirstLetterCapital(words[k])
  }

  /** The description check: `firstLetterCapital` of the whole string. */
  predicate DescriptionValid(description: string) {
    FirstLetterCapital(description)
  }

  /** Position `j` of `t` directly follows a space. */
  predicate AfterSpace(t: string, j: int) {
    0 < j < |t| && t[j - 1] == ' '
  }

  /** Neither the first character nor any character right after a space is a lower-case letter. */
  ghost predicate WordInitialsCapital(t: string) {
    (|t| > 0 ==> !IsLower(t[0]))
    && forall j {:trigger AfterSpace(t, j)} :: AfterSpace(t, j) ==> !IsLower(t[j])
  }

  /** Every piece of `[first] + rest` passes exactly when `first` and every piece of `rest` do. */
  lemma AllPassCons(first: string, rest: seq<string>)
    ensures (forall k :: 0 <= k < |[first] + rest| ==> FirstLetterCapital(([first] + rest)[k]))
            <==> FirstLetterCapital(first) && forall k :: 0 <= k < |rest| ==> FirstLetterCapital(rest[k])
  {
    var words := [first] + rest;
    assert words[0] == first;
    assert forall k :: 0 <= k < |rest| ==> words[k + 1] == rest[k];
    if FirstLetterCapital(first) && forall k :: 0 <= k < |rest| ==> FirstLetterCapital(rest[k]) {
      forall k | 0 <= k < |words| ensures FirstLetterCapital(words[k]) {
        if k > 0 {
          assert words[k] == rest[k - 1];
        }
      }
    }
  }

  /** Splitting at the first space: the title passes exactly when its first piece and the rest pass. */
  lemma TitleValidStep(t: string, i: nat)
    requires i == IndexOf(t, ' ') < |t|
    ensures TitleValid(t) <==> FirstLetterCapital(t[..i]) && TitleValid(t[i + 1..])
  {
    SplitAtFirst(t, ' ');
    AllPassCons(t[..i], Split(t[i + 1..], ' '));
  }

  /** The same split for word initials: the first character, and the initials of what follows the first space. */
  lemma WordInitialsStep(t: string, i: nat)
    requires i == IndexOf(t, ' ') < |t|
    ensures WordInitialsCapital(t) <==> (i == 0 || !IsLower(t[0])) && WordInitialsCapital(t[i + 1..])
  {
    if WordInitialsCapital(t) {
      WordInitialsRest(t, i);
    }
    if (i == 0 || !IsLower(t[0])) && WordInitialsCapital(t[i + 1..]) {
      WordInitialsJoin(t, i);
    }
  }

  lemma WordInitialsRest(t: string, i: nat)
    requires i < |t| && t[i] == ' '
    requires WordInitialsCapital(t)
    ensures WordInitialsCapital(t[i + 1..])
  {
    var rest := t[i + 1..];
    if |rest| > 0 {
      assert AfterSpace(t, i + 1);
    }
    forall j | AfterSpace(rest, j) ensures !IsLower(rest[j]) {
      assert AfterSpace(t, i + 1 + j);
    }
  }

  lemma WordInitialsJoin(t: string, i: nat)
    requires i == IndexOf(t, ' ') < |t|
    requires i == 0 || !IsLower(t[0])
    requires WordInitialsCapital(t[i + 1..])
    ensures WordInitialsCapital(t)
  {
    var rest := t[i + 1..];
    forall p | AfterSpace(t, p) ensures !IsLower(t[p]) {
      if p - 1 > i {
        assert AfterSpace(rest, p - i - 1);
      } else if p - 1 == i {
        assert rest[0] == t[p];
      }
    }
  }

  /**
   * A title passes exactly when no character that starts it or follows a
   * space is a lower-case letter. Consecutive spaces make empty pieces,
   * which pass.
   */
  lemma {:induction false} TitleValidIff(t: string)
    ensures TitleValid(t) <==> WordInitialsCapital(t)
    decreases |t|
  {
    var i := IndexOf(t, ' ');
    if i == |t| {
      var words := Split(t, ' ');
      assert words == [t];
      assert forall q :: 0 <= q < |t| ==> t[q] != ' ';
      assert TitleValid(t) <==> FirstLetterCapital(words[0]);
      assert WordInitialsCapital(t) <==> (|t| > 0 ==> !IsLower(t[0]));
    } else {
      TitleValidIff(t[i + 1..]);
      TitleValidStep(t, i);
      WordInitialsStep(t, i);
      assert FirstLetterCapital(t[..i]) <==> (i == 0 || !IsLower(t[0]));
    }
  }

  /** Every title that passes also passes as a description: its first piece starts the string. */
  lemma TitleImpliesDescription(t: string)
    ensures TitleValid(t) ==> DescriptionValid(t)
  {
    TitleValidIff(t);
  }

  /** What the title check reports: nothing, a missing title, or the title's message. */
  function TitleIssues(title: Option<string>): (issues: seq<Issue>)
    ensures issues == [] <==> title.Some? && WordInitialsCapital(title.value)
    ensures |issues| <= 1 && forall k :: 0 <= k < |issues| ==> issues[k].field == "title"
  {
    match title
    case None => [Issue("title", "Required")]
    case Some(t) =>
      TitleValidIff(t);
      if TitleValid(t) then [] else [Issue("title", "Use parcal case")]
  }

  /** What the description check reports: nothing, a missing description, or its message. */
  function DescriptionIssues(description: Option<string>): (issues: seq<Issue>)
    ensures issues == [] <==> description.Some? && (description.value == "" || !IsLower(description.value[0]))
    ensures |issues| <= 1 && forall k :: 0 <= k < |issues| ==> issues[k].field == "description"
  {
    match description
    case None => [Issue("description", "Required")]
    case Some(d) => if DescriptionValid(d) then [] else [Issue("description", "First letter should be capital")]
  }

  /** What a plain `z.string()` field reports: nothing when present, `Required` when missing. */
  function RequiredIssues(field: string, value: Option<string>): (issues: seq<Issue>)
    ensures issues == [] <==> value.Some?
    ensures forall k :: 0 <= k < |issues| ==> issues[k] == Issue(field, "Required")
  {
    if value.Some? then [] else [Issue(field, "Required")]
  }

  /** A problem with one frontmatter field. */
  datatype Issue = Issue(field: string, message: string)

  /** The outcome of checking an entry's frontmatter: the typed entry, or every issue found. */
  datatype Checked<T> = Accepted(entry: T) | Rejected(issues: seq<Issue>)

  /** The issues reported against one field, in the order they were reported. */
  function IssuesFor(issues: seq<Issue>, field: string): (r: seq<Issue>)
    ensures |r| <= |issues|
    ensures forall k :: 0 <= k < |r| ==> r[k].field == field
  {
    if |issues| == 0 then []
    else (if issues[0].field == field then [issues[0]] else []) + IssuesFor(issues[1..], field)
  }

  /** Issues all about one field are kept whole by that field's filter and dropped by every other. */
  lemma IssuesForOneField(issues: seq<Issue>, field: string, other: string)
    requires forall k :: 0 <= k < |issues| ==> issues[k].field == field
    ensures IssuesFor(issues, field) == issues
    ensures other != field ==> IssuesFor(issues, other) == []
  {
    IssuesForKept(issues, field);
    if other != field {
      IssuesForDropped(issues, field, other);
    }
  }

  lemma {:induction false} IssuesForKept(issues: seq<Issue>, field: string)
    requires forall k :: 0 <= k < |issues| ==> issues[k].field == field
    ensures IssuesFor(issues, field) == issues
    decreases |issues|
  {
    if |issues| > 0 {
      IssuesForKept(issues[1..], field);
      assert IssuesFor(issues, field) == [issues[0]] + IssuesFor(issues[1..], field);
      assert issues == [issues[0]] + issues[1..];
    }
  }

  lemma {:induction false} IssuesForDropped(issues: seq<Issue>, field: string, other: string)
    requires forall k :: 0 <= k < |issues| ==> issues[k].field == field
    requires other != field
    ensures IssuesFor(issues, other) == []
    decreases |issues|
  {
    if |issues| > 0 {
      IssuesForDropped(issues[1..], field, other);
      assert IssuesFor(issues, other) == IssuesFor(issues[1..], other);
    }
  }

  /** Filtering a concatenation filters each part. */
  lemma {:induction false} IssuesForAppend(a: seq<Issue>, b: seq<Issue>, field: string)
    ensures IssuesFor(a + b, field) == IssuesFor(a, field) + IssuesFor(b, field)
    decreases |a|
  {
    if |a| == 0 {
      assert a + b == b;
    } else {
      assert (a + b)[1..] == a[1..] + b;
      IssuesForAppend(a[1..], b, field);
    }
  }

  /** A double space makes an empty piece, and an empty piece passes. */
  lemma DoubleSpaceTitle()
    ensures TitleValid("Hello  World")
  {
    var t := "Hello  World";
    forall j | AfterSpace(t, j) ensures !IsLower(t[j]) {
      assert j == 6 || j == 7;
    }
    assert WordInitialsCapital(t);
    TitleValidIff(t);
  }

  /** One word starting with a lower-case letter fails the whole title. */
  lemma LowerCaseWordTitle()
    ensures !TitleValid("Hello world")
  {
    var t := "Hello world";
    TitleValidIff(t);
    assert AfterSpace(t, 6) && IsLower(t[6]);
  }
}
