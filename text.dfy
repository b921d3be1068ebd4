/** The pieces of Python's `str` that the activators rely on, written out:
    `isspace`, `strip`, `upper`/`lower` (on the ASCII letters, which is all
    the modelled inputs ever contain where the result matters), `replace`
    with an empty replacement, `split` on one character, and `splitlines`. */
module Text {
  import opened Search

  /** Python's `str.isspace()` for one character. */
  predicate IsSpace(c: char) {
    c == ' ' || ('\t' <= c <= '\r') || ('\U{1C}' <= c <= '\U{1F}')
    || c == '\U{85}' || c == '\U{A0}' || c == '\U{1680}'
    || ('\U{2000}' <= c <= '\U{200A}') || c == '\U{2028}' || c == '\U{2029}'
    || c == '\U{202F}' || c == '\U{205F}' || c == '\U{3000}'
  }

  /** How many white-space characters `s` starts with. */
  function LeadingSpace(s: string): (n: nat)
    ensures n <= |s|
    ensures forall i :: 0 <= i < n ==> IsSpace(s[i])
    ensures n < |s| ==> !IsSpace(s[n])
  {
    if s != [] && IsSpace(s[0]) then 1 + LeadingSpace(s[1..]) else 0
  }

  /** Where the trailing white space of `s` begins. */
  function TrailingSpace(s: string): (m: nat)
    ensures m <= |s|
    ensures forall i :: m <= i < |s| ==> IsSpace(s[i])
    ensures m > 0 ==> !IsSpace(s[m - 1])
  {
    if s != [] && IsSpace(s[|s| - 1]) then TrailingSpace(s[..|s| - 1]) else |s|
  }

  /** `r` is `s[i..i + |r|]` and everything of `s` around it is white space. */
  predicate TrimmedAt(s: string, r: string, i: int) {
    0 <= i && i + |r| <= |s| && r == s[i..i + |r|]
    && (forall k :: 0 <= k < i ==> IsSpace(s[k]))
    && (forall k :: i + |r| <= k < |s| ==> IsSpace(s[k]))
  }

  /** `s.strip()`: `s` without its leading and trailing white space. */
  function Strip(s: string): (r: string)
    ensures r != [] ==> !IsSpace(r[0]) && !IsSpace(r[|r| - 1])
  {
    var i := LeadingSpace(s);
    var j := TrailingSpace(s);
    if i < j then s[i..j] else []
  }

  /** What `strip` keeps is the part of the input between its leading and
      its trailing white space. */
  lemma StripTrimmed(s: string)
    ensures TrimmedAt(s, Strip(s), LeadingSpace(s))
  {
    var i := LeadingSpace(s);
    var j := TrailingSpace(s);
    assert j <= i ==> i == |s|;
  }

  function UpperChar(c: char): char {
    if 'a' <= c <= 'z' then (c as int - 32) as char else c
  }

  function LowerChar(c: char): char {
    if 'A' <= c <= 'Z' then (c as int + 32) as char else c
  }

  function Upper(s: string): (r: string)
    ensures |r| == |s|
  {
    seq(|s|, i requires 0 <= i < |s| => UpperChar(s[i]))
  }

  function Lower(s: string): (r: string)
    ensures |r| == |s|
  {
    seq(|s|, i requires 0 <= i < |s| => LowerChar(s[i]))
  }

  /** `s.replace(c, '')`: every `c` deleted, the rest kept in order. */
  function RemoveChar(s: string, c: char): string {
    if s == [] then []
    else (if s[0] == c then [] else [s[0]]) + RemoveChar(s[1..], c)
  }

  /** The removal deletes every `c` and nothing else: the multiset of the
      result is the input's without `c`, and the length drops by the count
      of `c`. */
  lemma {:induction false} RemoveCharCounts(s: string, c: char)
    ensures multiset(RemoveChar(s, c)) == multiset(s)[c := 0]
    ensures |RemoveChar(s, c)| == |s| - multiset(s)[c]
    decreases |s|
  {
    if s != [] {
      RemoveCharCounts(s[1..], c);
      assert s == [s[0]] + s[1..];
    }
  }

  /** The characters `s.replace(c, '')` keeps are those of `s` other than `c`. */
  lemma RemoveCharKeeps(s: string, c: char)
    ensures forall i :: 0 <= i < |s| && s[i] != c ==> s[i] in RemoveChar(s, c)
    ensures forall x :: x in RemoveChar(s, c) ==> x in s && x != c
  {
    var r := RemoveChar(s, c);
    RemoveCharCounts(s, c);
    forall i | 0 <= i < |s| && s[i] != c
      ensures s[i] in r
    {
      assert s[i] in multiset(s);
      assert multiset(r)[s[i]] == multiset(s)[s[i]];
    }
    forall x | x in r
      ensures x in s && x != c
    {
      assert x in multiset(r);
    }
  }

  /** The first index of `c` in `s`. */
  function IndexOfChar(s: string, c: char): (i: nat)
    requires c in s
    ensures i < |s| && s[i] == c && c !in s[..i]
  {
    if s[0] == c then 0 else IndexOfChar(s[1..], c) + 1
  }

  /** `sep.join(parts)`, the inverse of `Split`. */
  function Join(parts: seq<string>, sep: char): string
    requires |parts| >= 1
  {
    if |parts| == 1 then parts[0] else parts[0] + [sep] + Join(parts[1..], sep)
  }

  /** `s.split(sep)` for a one-character separator. */
  function Split(s: string, sep: char): (parts: seq<string>)
    ensures |parts| >= 1
    ensures forall k :: 0 <= k < |parts| ==> sep !in parts[k]
    ensures Join(parts, sep) == s
    decreases |s|
  {
    if sep !in s then [s]
    else
      var i := IndexOfChar(s, sep);
      var rest := Split(s[i + 1..], sep);
      assert ([s[..i]] + rest)[1..] == rest;
      assert s == s[..i] + [sep] + s[i + 1..];
      [s[..i]] + rest
  }

  /** The first separator is the one no separator precedes. */
  lemma IndexOfCharAt(s: string, c: char, i: nat)
    requires i < |s| && s[i] == c && c !in s[..i]
    ensures c in s && IndexOfChar(s, c) == i
  {
    var r := IndexOfChar(s, c);
    assert forall k :: 0 <= k < i ==> s[..i][k] == s[k];
    assert forall k :: 0 <= k < r ==> s[..r][k] == s[k];
  }

  /** A join of several parts: the first part, the separator, then the join
      of the rest. */
  lemma JoinFirst(parts: seq<string>, sep: char)
    requires |parts| > 1 && sep !in parts[0]
    ensures var s := Join(parts, sep);
      sep in s && IndexOfChar(s, sep) == |parts[0]| && s[..|parts[0]|] == parts[0]
      && s[|parts[0]| + 1..] == Join(parts[1..], sep)
  {
    var s := Join(parts, sep);
    var n := |parts[0]|;
    assert s == parts[0] + [sep] + Join(parts[1..], sep);
    assert s[..n] == parts[0];
    IndexOfCharAt(s, sep, n);
  }

  /** Splitting a join of separator-free parts gives the parts back. */
  lemma {:induction false} SplitJoin(parts: seq<string>, sep: char)
    requires |parts| >= 1
    requires forall k :: 0 <= k < |parts| ==> sep !in parts[k]
    ensures Split(Join(parts, sep), sep) == parts
    decreases |parts|
  {
    if |parts| > 1 {
      JoinFirst(parts, sep);
      assert forall k :: 0 <= k < |parts[1..]| ==> parts[1..][k] == parts[k + 1];
      SplitJoin(parts[1..], sep);
      assert parts == [parts[0]] + parts[1..];
    }
  }

  /** `sub in s`, and the index of its first occurrence. */
  function IndexOf(s: string, sub: string): int {
    Find(s, sub, 0)
  }

  /** The characters at which Python's `str.splitlines()` breaks lines
      (`\r\n` counts as one break). */
  predicate IsLineBreak(c: char) {
    ('\n' <= c <= '\r') || ('\U{1C}' <= c <= '\U{1E}')
    || c == '\U{85}' || c == '\U{2028}' || c == '\U{2029}'
  }

  function LineEnd(s: string, from: nat): (r: nat)
    requires from <= |s|
    ensures from <= r <= |s| && (r < |s| ==> IsLineBreak(s[r]))
    ensures forall i :: from <= i < r ==> !IsLineBreak(s[i])
    decreases |s| - from
  {
    if from == |s| || IsLineBreak(s[from]) then from else LineEnd(s, from + 1)
  }

  /** `s.splitlines()`: the lines of `s` without their line breaks; a final
      line break does not start an empty line. */
  function SplitLines(s: string): (lines: seq<string>)
    ensures forall k, i :: 0 <= k < |lines| && 0 <= i < |lines[k]| ==> !IsLineBreak(lines[k][i])
    decreases |s|
  {
    if s == [] then []
    else
      var e := LineEnd(s, 0);
      if e == |s| then [s]
      else
        var next := if s[e] == '\r' && e + 1 < |s| && s[e + 1] == '\n' then e + 2 else e + 1;
        [s[..e]] + SplitLines(s[next..])
  }

  /** No character of `a` is a line break. */
  predicate BreakFree(a: string) {
    forall i :: 0 <= i < |a| ==> !IsLineBreak(a[i])
  }

  /** The scan for a line end stops at the first break after a break-free
      prefix. */
  lemma LineEndAt(s: string, n: nat)
    requires n < |s| && BreakFree(s[..n]) && IsLineBreak(s[n])
    ensures LineEnd(s, 0) == n
  {
    assert forall i :: 0 <= i < n ==> s[..n][i] == s[i];
  }

  /** `splitlines` of a string with no break is that one line, and of the
      empty string no line. */
  lemma SplitLinesOne(a: string)
    requires BreakFree(a)
    ensures SplitLines(a) == (if a == [] then [] else [a])
  {
  }

  /** A break-free line ended by a single break character (not a `\r`
      starting `\r\n`) is the first line, and the rest is split on its own. */
  lemma SplitLinesBreak(a: string, b: char, rest: string)
    requires BreakFree(a) && IsLineBreak(b)
    requires !(b == '\r' && rest != [] && rest[0] == '\n')
    ensures SplitLines(a + [b] + rest) == [a] + SplitLines(rest)
  {
    var s := a + [b] + rest;
    assert s[..|a|] == a;
    LineEndAt(s, |a|);
    assert s[|a| + 1..] == rest;
  }

  /** A break-free line ended by `\r\n` is the first line: the pair is one
      break. */
  lemma SplitLinesCrLf(a: string, rest: string)
    requires BreakFree(a)
    ensures SplitLines(a + "\r\n" + rest) == [a] + SplitLines(rest)
  {
    var s := a + "\r\n" + rest;
    assert s[..|a|] == a;
    assert s[|a|] == '\r' && s[|a| + 1] == '\n';
    LineEndAt(s, |a|);
    assert s[|a| + 2..] == rest;
  }
}
