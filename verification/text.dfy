/**
 * String helpers shared by the relay and the frontmatter validators:
 * searching for a character, and JavaScript's `String.prototype.split`
 * with a one-character separator, with `join` as its inverse.
 */
module Text {

  /** `t` occurs in `s` as a contiguous run of characters. */
  ghost predicate Contains(s: string, t: string) {
    exists i, j :: 0 <= i <= j <= |s| && s[i..j] == t
  }

  lemma ContainsMiddle(a: string, t: string, b: string)
    ensures Contains(a + t + b, t)
  {
    assert (a + t + b)[|a|..|a| + |t|] == t;
  }

  /** Index of the first `c` in `s`, or `|s|` when there is none. */
  function IndexOf(s: string, c: char): (i: nat)
    ensures i <= |s|
    ensures forall k :: 0 <= k < i ==> s[k] != c
    ensures i < |s| ==> s[i] == c
  {
    if |s| == 0 then 0
    else if s[0] == c then 0
    else 1 + IndexOf(s[1..], c)
  }

  /** The first `c` in `a + [c] + b` is the one after `a` when `a` has none. */
  lemma IndexOfAfter(a: string, c: char, b: string)
    requires c !in a
    ensures IndexOf(a + [c] + b, c) == |a|
  {
    var s := a + [c] + b;
    assert s[|a|] == c;
    assert forall k :: 0 <= k < |a| ==> s[k] == a[k];
  }

  lemma IndexOfAbsent(s: string, c: char)
    requires c !in s
    ensures IndexOf(s, c) == |s|
  {
    assert forall k :: 0 <= k < |s| ==> s[k] in s;
  }

  /**
   * `s.split(sep)` for a one-character separator: the pieces between
   * consecutive separators, in order; adjacent separators give an empty
   * piece and the empty string gives one empty piece.
   */
  function Split(s: string, sep: char): (parts: seq<string>)
    ensures 1 <= |parts| <= |s| + 1
    decreases |s|
  {
    var i := IndexOf(s, sep);
    if i == |s| then [s] else [s[..i]] + Split(s[i + 1..], sep)
  }

  /** Splitting at the first separator: the piece before it, then the split of what follows. */
  lemma SplitAtFirst(s: string, sep: char)
    requires IndexOf(s, sep) < |s|
    ensures Split(s, sep) == [s[..IndexOf(s, sep)]] + Split(s[IndexOf(s, sep) + 1..], sep)
  {
  }

  /** A leading piece without the separator splits off on its own. */
  lemma SplitFront(a: string, b: string, sep: char)
    requires sep !in a
    ensures Split(a + [sep] + b, sep) == [a] + Split(b, sep)
  {
    var s := a + [sep] + b;
    IndexOfAfter(a, sep, b);
    SplitAtFirst(s, sep);
    assert s[..|a|] == a;
    assert s[|a| + 1..] == b;
  }

  /** When the third of five pieces holds the separator, splitting their join keeps only its part before it. */
  lemma ThirdPieceCut(segs: seq<string>, cut: string, rest: string, sep: char)
    requires |segs| == 5 && sep !in segs[0] && sep !in segs[1] && sep !in cut
    requires segs[2] == cut + [sep] + rest
    ensures |Split(Join(segs, sep), sep)| >= 3 && Split(Join(segs, sep), sep)[2] == cut
  {
    JoinCons(segs[0], segs[1..], sep);
    assert [segs[0]] + segs[1..] == segs;
    JoinCons(segs[1], segs[2..], sep);
    assert [segs[1]] + segs[2..] == segs[1..];
    JoinCons(segs[2], segs[3..], sep);
    assert [segs[2]] + segs[3..] == segs[2..];
    var tail := rest + [sep] + Join(segs[3..], sep);
    assert Join(segs[2..], sep) == cut + [sep] + tail;
    SplitFront(cut, tail, sep);
    SplitFront(segs[1], Join(segs[2..], sep), sep);
    SplitFront(segs[0], Join(segs[1..], sep), sep);
  }

  /** No piece of a split contains the separator. */
  lemma {:induction false} SplitSeparatorFree(s: string, sep: char)
    ensures forall k :: 0 <= k < |Split(s, sep)| ==> sep !in Split(s, sep)[k]
    decreases |s|
  {
    var i := IndexOf(s, sep);
    if i < |s| {
      var rest := Split(s[i + 1..], sep);
      SplitSeparatorFree(s[i + 1..], sep);
      SplitAtFirst(s, sep);
      assert forall k :: 0 <= k < i ==> s[..i][k] == s[k];
      assert sep !in s[..i];
      var parts := Split(s, sep);
      forall k | 0 <= k < |parts| ensures sep !in parts[k] {
        if k > 0 {
          assert parts[k] == rest[k - 1];
        }
      }
    } else {
      assert Split(s, sep) == [s];
      assert forall k :: 0 <= k < |s| ==> s[k] != sep;
    }
  }

  /** Joining one more piece in front puts a separator after it. */
  lemma JoinCons(first: string, rest: seq<string>, sep: char)
    requires |rest| >= 1
    ensures Join([first] + rest, sep) == first + [sep] + Join(rest, sep)
  {
    assert ([first] + rest)[1..] == rest;
  }

  /** `parts.join(sep)`. */
  function Join(parts: seq<string>, sep: char): string {
    if |parts| == 0 then ""
    else if |parts| == 1 then parts[0]
    else parts[0] + [sep] + Join(parts[1..], sep)
  }

  /** Joining the pieces of a split gives back the original string. */
  lemma {:induction false} JoinSplit(s: string, sep: char)
    ensures Join(Split(s, sep), sep) == s
    decreases |s|
  {
    var i := IndexOf(s, sep);
    if i < |s| {
      var rest := s[i + 1..];
      JoinSplit(rest, sep);
      SplitAtFirst(s, sep);
      JoinCons(s[..i], Split(rest, sep), sep);
      assert s == s[..i] + [sep] + rest;
    }
  }

  /** Splitting a join of separator-free pieces gives back the pieces. */
  lemma {:induction false} SplitJoin(parts: seq<string>, sep: char)
    requires |parts| >= 1
    requires forall k :: 0 <= k < |parts| ==> sep !in parts[k]
    ensures Split(Join(parts, sep), sep) == parts
    decreases |parts|
  {
    if |parts| == 1 {
      IndexOfAbsent(parts[0], sep);
    } else {
      var tail := Join(parts[1..], sep);
      var s := parts[0] + [sep] + tail;
      assert parts == [parts[0]] + parts[1..];
      JoinCons(parts[0], parts[1..], sep);
      IndexOfAfter(parts[0], sep, tail);
      SplitAtFirst(s, sep);
      assert s[..|parts[0]|] == parts[0];
      assert s[|parts[0]| + 1..] == tail;
      SplitJoin(parts[1..], sep);
    }
  }
}
