/**
 * The string operations the bots rely on: `str.lower()` (ASCII letters only),
 * the `in` substring test, `str.strip()`, `str.split(sep)` and `sep.join(...)`
 * for a one-character separator.
 */
module Text {

  /** `c.lower()` for ASCII; other characters are left as they are. */
  function LowerChar(c: char): char
  {
    if 'A' <= c <= 'Z' then (c as int + 32) as char else c
  }

  function Lower(s: string): string
  {
    seq(|s|, i requires 0 <= i < |s| => LowerChar(s[i]))
  }

  /** Python's `needle in hay`: some window of `hay` equals `needle`. */
  predicate Contains(needle: string, hay: string)
  {
    exists i | 0 <= i <= |hay| - |needle| :: OccursAt(needle, hay, i)
  }

  /** `needle` stands in `hay` starting at position `i`. */
  predicate OccursAt(needle: string, hay: string, i: nat)
  {
    i + |needle| <= |hay| && hay[i..i + |needle|] == needle
  }

  lemma LowerIdempotent(s: string)
    ensures Lower(Lower(s)) == Lower(s)
  {
  }

  /** The empty string is contained in every string, as `"" in s` is true. */
  lemma EmptyContained(hay: string)
    ensures Contains("", hay)
  {
    assert OccursAt("", hay, 0);
  }

  /** Containment survives lower-casing both sides. */
  lemma LowerKeepsContains(needle: string, hay: string)
    requires Contains(needle, hay)
    ensures Contains(Lower(needle), Lower(hay))
  {
    var i :| 0 <= i <= |hay| - |needle| && OccursAt(needle, hay, i);
    assert Lower(hay)[i..i + |needle|] == Lower(needle);
    assert OccursAt(Lower(needle), Lower(hay), i);
  }

  /** A needle longer than the text is never contained in it. */
  lemma LongerNotContained(needle: string, hay: string)
    requires |needle| > |hay|
    ensures !Contains(needle, hay)
  {
  }

  /** Every string contains itself. */
  lemma ContainsSelf(s: string)
    ensures Contains(s, s)
  {
    assert s[0..|s|] == s;
    assert OccursAt(s, s, 0);
  }

  /** What `a` contains, `a + b` contains. */
  lemma ContainsLeft(s: string, a: string, b: string)
    requires Contains(s, a)
    ensures Contains(s, a + b)
  {
    var i :| 0 <= i <= |a| - |s| && OccursAt(s, a, i);
    assert (a + b)[i..i + |s|] == a[i..i + |s|];
    assert OccursAt(s, a + b, i);
  }

  /** What `b` contains, `a + b` contains. */
  lemma ContainsRight(s: string, a: string, b: string)
    requires Contains(s, b)
    ensures Contains(s, a + b)
  {
    var i :| 0 <= i <= |b| - |s| && OccursAt(s, b, i);
    assert (a + b)[|a| + i..|a| + i + |s|] == b[i..i + |s|];
    assert OccursAt(s, a + b, |a| + i);
  }

  /** The characters `str.isspace()` accepts: ASCII and Unicode whitespace. */
  predicate IsSpace(c: char)
  {
    || c == ' ' || '\U{9}' <= c <= '\U{d}' || '\U{1c}' <= c <= '\U{1f}'
    || c == '\U{85}' || c == '\U{a0}' || c == '\U{1680}' || '\U{2000}' <= c <= '\U{200a}'
    || c == '\U{2028}' || c == '\U{2029}' || c == '\U{202f}' || c == '\U{205f}' || c == '\U{3000}'
  }

  /** The first index at or after `i` that does not hold whitespace. */
  function SkipSpaces(s: string, i: nat): (k: nat)
    requires i <= |s|
    ensures i <= k <= |s|
    ensures forall t :: i <= t < k ==> IsSpace(s[t])
    ensures k < |s| ==> !IsSpace(s[k])
    decreases |s| - i
  {
    if i < |s| && IsSpace(s[i]) then SkipSpaces(s, i + 1) else i
  }

  /** The end of `s[lo..j]` once trailing whitespace is cut off. */
  function TrimEnd(s: string, lo: nat, j: nat): (k: nat)
    requires lo <= j <= |s|
    ensures lo <= k <= j
    ensures forall t :: k <= t < j ==> IsSpace(s[t])
    ensures k > lo ==> !IsSpace(s[k - 1])
    decreases j
  {
    if j > lo && IsSpace(s[j - 1]) then TrimEnd(s, lo, j - 1) else j
  }

  /**
   * `s.strip()`: `s` with its leading and trailing whitespace removed. The
   * result is a slice of `s`, everything cut off is whitespace, and the result
   * neither starts nor ends with whitespace.
   */
  function Strip(s: string): (r: string)
    ensures exists i, j :: 0 <= i <= j <= |s| && r == s[i..j]
                           && (forall t :: 0 <= t < i ==> IsSpace(s[t]))
                           && (forall t :: j <= t < |s| ==> IsSpace(s[t]))
    ensures r != [] ==> !IsSpace(r[0]) && !IsSpace(r[|r| - 1])
  {
    var i := SkipSpaces(s, 0);
    var j := TrimEnd(s, i, |s|);
    assert forall t :: j <= t < |s| ==> IsSpace(s[t]);
    s[i..j]
  }

  /** The position of the first `c` in `s`. */
  function IndexOf(s: string, c: char): (i: nat)
    requires c in s
    ensures i < |s| && s[i] == c && c !in s[..i]
  {
    if s[0] == c then 0 else 1 + IndexOf(s[1..], c)
  }

  /** `s.split(c)` with a one-character separator: never empty. */
  function Split(s: string, c: char): (parts: seq<string>)
    ensures |parts| >= 1
    decreases |s|
  {
    if c !in s then [s]
    else
      var i := IndexOf(s, c);
      [s[..i]] + Split(s[i + 1..], c)
  }

  /** `c.join(parts)` with a one-character separator. */
  function Join(parts: seq<string>, c: char): string
  {
    if |parts| == 0 then ""
    else if |parts| == 1 then parts[0]
    else parts[0] + [c] + Join(parts[1..], c)
  }

  predicate NoneContains(parts: seq<string>, c: char)
  {
    forall k :: 0 <= k < |parts| ==> c !in parts[k]
  }

  /** Splitting yields one more piece than there are separators, none holding `c`. */
  lemma {:induction false} SplitCount(s: string, c: char)
    ensures |Split(s, c)| == multiset(s)[c] + 1
    ensures NoneContains(Split(s, c), c)
    decreases |s|
  {
    if c in s {
      var i := IndexOf(s, c);
      assert s == s[..i] + [c] + s[i + 1..];
      assert multiset(s) == multiset(s[..i]) + multiset([c]) + multiset(s[i + 1..]);
      SplitCount(s[i + 1..], c);
    }
  }

  /** Joining the pieces of a split gives back the original text. */
  lemma {:induction false} JoinSplit(s: string, c: char)
    ensures Join(Split(s, c), c) == s
    decreases |s|
  {
    if c in s {
      var i := IndexOf(s, c);
      JoinSplit(s[i + 1..], c);
      JoinCons(s[..i], Split(s[i + 1..], c), c);
      SplitAround(s, i);
    }
  }

  /** Splitting a join of pieces free of `c` gives back the pieces. */
  lemma {:induction false} SplitJoin(parts: seq<string>, c: char)
    requires |parts| >= 1 && NoneContains(parts, c)
    ensures Split(Join(parts, c), c) == parts
    decreases |parts|
  {
    if |parts| > 1 {
      var rest := Join(parts[1..], c);
      assert Join(parts, c) == parts[0] + [c] + rest;
      SplitAtFirst(parts[0], c, rest);
      SplitJoin(parts[1..], c);
    }
  }

  /** Splitting at a first `c` preceded by `p` yields `p` and then the split of what follows. */
  lemma SplitAtFirst(p: string, c: char, rest: string)
    requires c !in p
    ensures Split(p + [c] + rest, c) == [p] + Split(rest, c)
  {
    var s := p + [c] + rest;
    assert s[|p|] == c;
    IndexOfAfter(p, c, rest);
    assert s[..|p|] == p;
    assert s[|p| + 1..] == rest;
  }

  lemma {:induction false} IndexOfAfter(p: string, c: char, rest: string)
    requires c !in p
    ensures c in p + [c] + rest && IndexOf(p + [c] + rest, c) == |p|
  {
    var s := p + [c] + rest;
    assert s[|p|] == c;
    if |p| > 0 {
      assert s[0] == p[0];
      assert s[1..] == p[1..] + [c] + rest;
      IndexOfAfter(p[1..], c, rest);
    }
  }

  /** A text with exactly one `c` splits into what stands before it and after it. */
  lemma SplitOnce(s: string, c: char)
    requires multiset(s)[c] == 1
    ensures c in s
    ensures Split(s, c) == [s[..IndexOf(s, c)], s[IndexOf(s, c) + 1..]]
  {
    assert c in multiset(s);
    var i := IndexOf(s, c);
    OnlyOne(s, c, i);
    assert Split(s[i + 1..], c) == [s[i + 1..]];
  }

  /** Where a text holds a single `c`, none follows it. */
  lemma OnlyOne(s: string, c: char, i: nat)
    requires i < |s| && s[i] == c && multiset(s)[c] == 1
    ensures c !in s[i + 1..]
  {
    assert s == s[..i] + [c] + s[i + 1..];
    assert multiset(s) == multiset(s[..i]) + multiset([c]) + multiset(s[i + 1..]);
  }
  /** The line boundaries of `str.splitlines()`. */
  predicate IsLineBreak(c: char)
  {
    || c == '\n' || c == '\r' || c == '\U{b}' || c == '\U{c}' || '\U{1c}' <= c <= '\U{1e}'
    || c == '\U{85}' || c == '\U{2028}' || c == '\U{2029}'
  }

  predicate NoLineBreak(s: string)
  {
    forall t :: 0 <= t < |s| ==> !IsLineBreak(s[t])
  }

  /** The first line boundary at or after `i`, or the end of `s`. */
  function LineEnd(s: string, i: nat): (k: nat)
    requires i <= |s|
    ensures i <= k <= |s|
    ensures forall t :: i <= t < k ==> !IsLineBreak(s[t])
    ensures k < |s| ==> IsLineBreak(s[k])
    decreases |s| - i
  {
    if i == |s| || IsLineBreak(s[i]) then i else LineEnd(s, i + 1)
  }

  /**
   * `s.splitlines()`: the text between line boundaries, where `\r\n` counts
   * as one boundary and a final boundary does not open an empty line. No
   * line holds a boundary character.
   */
  function SplitLines(s: string): (lines: seq<string>)
    ensures forall l :: 0 <= l < |lines| ==> NoLineBreak(lines[l])
    ensures s == [] <==> lines == []
    decreases |s|
  {
    if s == [] then []
    else
      var e := LineEnd(s, 0);
      if e == |s| then [s]
      else
        var next := if s[e] == '\r' && e + 1 < |s| && s[e + 1] == '\n' then e + 2 else e + 1;
        [s[..e]] + SplitLines(s[next..])
  }

  /** Every line boundary in `s` is a `\n`, and `s` does not end in one. */
  predicate NewlineSeparated(s: string)
  {
    && (forall t :: 0 <= t < |s| && IsLineBreak(s[t]) ==> s[t] == '\n')
    && (s == [] || !IsLineBreak(s[|s| - 1]))
  }

  /**
   * The lines are the text between the boundaries: when `\n` is the only
   * boundary and the text does not end in one, joining the lines with `\n`
   * gives the text back.
   */
  lemma {:induction false} SplitLinesJoin(s: string)
    requires NewlineSeparated(s)
    ensures Join(SplitLines(s), '\n') == s
    decreases |s|
  {
    if s != [] && LineEnd(s, 0) < |s| {
      var head, rest := SplitLinesStep(s);
      SplitLinesJoin(rest);
      JoinCons(head, SplitLines(rest), '\n');
    } else {
      JoinOneLine(s);
    }
  }

  /** Text without a line boundary joins back to itself. */
  lemma JoinOneLine(s: string)
    requires LineEnd(s, 0) == |s|
    ensures Join(SplitLines(s), '\n') == s
  {
    if s != [] {
      assert SplitLines(s) == [s];
    }
  }

  /** A text is the part before position `e`, the character there, and the part after. */
  lemma SplitAround(s: string, e: nat)
    requires e < |s|
    ensures s == s[..e] + [s[e]] + s[e + 1..]
  {
  }

  /**
   * Newline-separated text with a boundary is its first line, a `\n`, and
   * more newline-separated text, whose lines follow the first.
   */
  lemma SplitLinesStep(s: string) returns (head: string, rest: string)
    requires NewlineSeparated(s) && s != [] && LineEnd(s, 0) < |s|
    ensures s == head + ['\n'] + rest && |rest| < |s|
    ensures NewlineSeparated(rest)
    ensures SplitLines(s) == [head] + SplitLines(rest) && SplitLines(rest) != []
  {
    var e := LineEnd(s, 0);
    assert s[e] == '\n' && e < |s| - 1;
    head, rest := s[..e], s[e + 1..];
    NewlineSeparatedAfter(s, e);
    SplitLinesAtNewline(s);
    SplitAround(s, e);
  }

  /** What follows a `\n` inside newline-separated text is newline-separated. */
  lemma NewlineSeparatedAfter(s: string, e: nat)
    requires NewlineSeparated(s) && e < |s| - 1
    ensures NewlineSeparated(s[e + 1..])
  {
    var rest := s[e + 1..];
    assert forall t :: 0 <= t < |rest| ==> rest[t] == s[e + 1 + t];
    assert rest[|rest| - 1] == s[|s| - 1];
  }

  /** A `\n` boundary ends the first line and the rest is split after it. */
  lemma SplitLinesAtNewline(s: string)
    requires s != [] && LineEnd(s, 0) < |s| - 1 && s[LineEnd(s, 0)] == '\n'
    ensures SplitLines(s) == [s[..LineEnd(s, 0)]] + SplitLines(s[LineEnd(s, 0) + 1..])
    ensures SplitLines(s[LineEnd(s, 0) + 1..]) != []
  {
  }

  /** Joining a head and a non-empty tail puts the separator between them. */
  lemma JoinCons(head: string, tail: seq<string>, c: char)
    requires tail != []
    ensures Join([head] + tail, c) == head + [c] + Join(tail, c)
  {
    assert ([head] + tail)[1..] == tail;
  }

  /** Text without line boundaries is a single line. */
  lemma SingleLine(s: string)
    requires s != [] && NoLineBreak(s)
    ensures SplitLines(s) == [s]
  {
    assert LineEnd(s, 0) == |s|;
  }

  /** A character missing from `s` is missing from `s.strip()`. */
  lemma StripKeepsOut(s: string, c: char)
    requires c !in s
    ensures c !in Strip(s)
  {
    var i, j :| 0 <= i <= j <= |s| && Strip(s) == s[i..j];
    assert forall t :: 0 <= t < j - i ==> s[i..j][t] == s[i + t];
  }
}
