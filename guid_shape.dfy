/** The 8-4-4-4-12 hexadecimal GUID shape, the regular-expression scan that
    finds it in a byte window, and the structural checks of the version and
    variant nibbles (section 4.1.3 and section 4.1.1 of RFC 4122). */
module GuidShape {
  import opened Wrappers
  import opened Bytes
  import Text

  const GUID_LEN: nat := 36
  const DASH: byte := 45

  /** The offsets of the four dashes of `XXXXXXXX-XXXX-XXXX-XXXX-XXXXXXXXXXXX`. */
  predicate IsDashIndex(i: int) {
    i == 8 || i == 13 || i == 18 || i == 23
  }

  /** `[0-9A-F]` under `re.IGNORECASE`, on bytes. */
  predicate IsHexByte(b: byte) {
    48 <= b <= 57 || 65 <= b <= 70 || 97 <= b <= 102
  }

  /** A 36-byte slice that the GUID pattern matches. */
  predicate ShapedBytes(g: seq<byte>) {
    |g| == GUID_LEN
    && forall i :: 0 <= i < GUID_LEN ==> if IsDashIndex(i) then g[i] == DASH else IsHexByte(g[i])
  }

  predicate ShapedAt(w: seq<byte>, k: int) {
    0 <= k && k + GUID_LEN <= |w| && ShapedBytes(w[k..k + GUID_LEN])
  }

  /** The match starts of `guid_pat.finditer(w)` (equally `findall`): a
      left-to-right scan that, the pattern having a fixed length, matches at
      an offset exactly when the 36 bytes there have the GUID shape, and
      resumes after the match. */
  function MatchStarts(w: seq<byte>, from: nat): seq<nat>
    decreases |w| - from
  {
    if from + GUID_LEN > |w| then []
    else if ShapedBytes(w[from..from + GUID_LEN]) then [from] + MatchStarts(w, from + GUID_LEN)
    else MatchStarts(w, from + 1)
  }

  /** Every match start is a shaped offset at or after `from` whose match
      lies inside `w`, and matches do not overlap. */
  lemma {:induction false} MatchStartsSound(w: seq<byte>, from: nat)
    ensures forall k :: 0 <= k < |MatchStarts(w, from)| ==>
      from <= MatchStarts(w, from)[k] && ShapedAt(w, MatchStarts(w, from)[k])
    ensures forall k :: 0 < k < |MatchStarts(w, from)| ==>
      MatchStarts(w, from)[k - 1] + GUID_LEN <= MatchStarts(w, from)[k]
    decreases |w| - from
  {
    if from + GUID_LEN <= |w| {
      if ShapedBytes(w[from..from + GUID_LEN]) {
        var next: nat := from + GUID_LEN;
        MatchStartsSound(w, next);
        var rest := MatchStarts(w, next);
        var ms := MatchStarts(w, from);
        assert ms == [from] + rest;
        forall k | 0 <= k < |ms|
          ensures from <= ms[k] && ShapedAt(w, ms[k])
        {
          if k > 0 { assert ms[k] == rest[k - 1]; }
        }
        forall k | 0 < k < |ms|
          ensures ms[k - 1] + GUID_LEN <= ms[k]
        {
          assert ms[k] == rest[k - 1];
          if k > 1 { assert ms[k - 1] == rest[k - 2]; }
        }
      } else {
        MatchStartsSound(w, from + 1);
      }
    }
  }

  /** The scan misses no match: every shaped offset at or after `from` lies
      inside one of the matches found, so a GUID-shaped slice is either a
      match or overlaps one found before it. */
  lemma {:induction false} MatchStartsCovers(w: seq<byte>, from: nat, q: nat)
    requires from <= q && ShapedAt(w, q)
    ensures exists k ::
      0 <= k < |MatchStarts(w, from)| && MatchStarts(w, from)[k] <= q < MatchStarts(w, from)[k] + GUID_LEN
    decreases |w| - from
  {
    var ms := MatchStarts(w, from);
    if ShapedBytes(w[from..from + GUID_LEN]) {
      assert ms[0] == from;
      if q >= from + GUID_LEN {
        var rest := MatchStarts(w, from + GUID_LEN);
        MatchStartsCovers(w, from + GUID_LEN, q);
        var k :| 0 <= k < |rest| && rest[k] <= q < rest[k] + GUID_LEN;
        assert ms[k + 1] == rest[k];
      }
    } else {
      assert q != from;
      MatchStartsCovers(w, from + 1, q);
    }
  }

  /** A buffer shorter than a GUID has no match. */
  lemma ShortWindowNoMatch(w: seq<byte>, from: nat)
    requires |w| < GUID_LEN
    ensures MatchStarts(w, from) == []
  {
  }

  /** `[0-9A-Fa-f]`, on text. */
  predicate IsHexChar(c: char) {
    '0' <= c <= '9' || 'A' <= c <= 'F' || 'a' <= c <= 'f'
  }

  /** `0123456789ABCDEF`. */
  predicate IsUpperHexChar(c: char) {
    '0' <= c <= '9' || 'A' <= c <= 'F'
  }

  /** The GUID shape, hex digits in either case. */
  predicate IsGuidShape(s: string) {
    |s| == GUID_LEN
    && forall i :: 0 <= i < GUID_LEN ==> if IsDashIndex(i) then s[i] == '-' else IsHexChar(s[i])
  }

  /** The GUID shape with upper-case hex digits only. */
  predicate IsUpperGuid(s: string) {
    |s| == GUID_LEN
    && forall i :: 0 <= i < GUID_LEN ==> if IsDashIndex(i) then s[i] == '-' else IsUpperHexChar(s[i])
  }

  /** `match.decode('ascii').upper()`. */
  function MatchText(g: seq<byte>): string {
    Text.Upper(Decode(g))
  }

  /** A matched slice decodes to a GUID-shaped string that upper-cases to an
      upper-case GUID. */
  lemma MatchTextIsUpperGuid(g: seq<byte>)
    requires ShapedBytes(g)
    ensures IsGuidShape(Decode(g))
    ensures IsUpperGuid(MatchText(g))
  {
    var d := Decode(g);
    var u := MatchText(g);
    forall i | 0 <= i < GUID_LEN
      ensures if IsDashIndex(i) then u[i] == '-' else IsUpperHexChar(u[i])
    {
      assert u[i] == Text.UpperChar(d[i]);
    }
  }

  /** `UUID_PATTERN.match(s)` for `^[0-9A-F]{8}-...-[0-9A-F]{12}$` under
      `re.IGNORECASE`: Python's `$` also matches just before a final `\n`. */
  predicate UuidPatternMatch(s: string) {
    IsGuidShape(s) || (|s| == GUID_LEN + 1 && s[GUID_LEN] == '\n' && IsGuidShape(s[..GUID_LEN]))
  }

  /** The five dash-separated groups of a GUID-shaped prefix, the last one
      running to the end of the string. */
  function Groups(s: string): seq<string>
    requires |s| >= GUID_LEN
  {
    [s[..8], s[9..13], s[14..18], s[19..23], s[24..]]
  }

  /** The five groups have the lengths 8, 4, 4, 4 and the rest, and the
      third and fourth start at offsets 14 and 19. */
  lemma GroupsLengths(s: string)
    requires |s| >= GUID_LEN
    ensures var parts := Groups(s);
      |parts| == 5 && |parts[0]| == 8 && |parts[1]| == 4 && |parts[2]| == 4 && |parts[3]| == 4
      && |parts[4]| == |s| - 24 && parts[2][0] == s[14] && parts[3][0] == s[19]
  {
  }

  /** Joining the five groups with dashes gives `s` back. */
  lemma GroupsJoin(s: string)
    requires |s| >= GUID_LEN
    requires forall i :: 0 <= i < GUID_LEN ==> (s[i] == '-' <==> IsDashIndex(i))
    ensures Text.Join(Groups(s), '-') == s
  {
    var parts := Groups(s);
    assert parts[4..] == [s[24..]];
    assert Text.Join(parts[4..], '-') == s[24..];
    assert parts[3..][1..] == parts[4..];
    assert s[19..] == s[19..23] + [s[23]] + s[24..];
    assert Text.Join(parts[3..], '-') == s[19..];
    assert parts[2..][1..] == parts[3..];
    assert s[14..] == s[14..18] + [s[18]] + s[19..];
    assert Text.Join(parts[2..], '-') == s[14..];
    assert parts[1..][1..] == parts[2..];
    assert s[9..] == s[9..13] + [s[13]] + s[14..];
    assert Text.Join(parts[1..], '-') == s[9..];
    assert s == s[..8] + [s[8]] + s[9..];
  }

  /** No group contains a dash. */
  lemma GroupsDashFree(s: string)
    requires |s| >= GUID_LEN
    requires forall i :: 0 <= i < GUID_LEN ==> (s[i] == '-' <==> IsDashIndex(i))
    requires forall i :: GUID_LEN <= i < |s| ==> s[i] != '-'
    ensures forall k :: 0 <= k < 5 ==> '-' !in Groups(s)[k]
  {
    var parts := Groups(s);
    assert forall j :: 0 <= j < 8 ==> parts[0][j] == s[j];
    assert forall j :: 0 <= j < 4 ==> parts[1][j] == s[9 + j];
    assert forall j :: 0 <= j < 4 ==> parts[2][j] == s[14 + j];
    assert forall j :: 0 <= j < 4 ==> parts[3][j] == s[19 + j];
    assert forall j :: 0 <= j < |s| - 24 ==> parts[4][j] == s[24 + j];
  }

  /** Where the first 36 characters have the GUID shape and nothing after
      them is a dash, `s.split('-')` gives exactly the five groups. */
  lemma SplitShaped(s: string)
    requires |s| >= GUID_LEN
    requires forall i :: 0 <= i < GUID_LEN ==> (s[i] == '-' <==> IsDashIndex(i))
    requires forall i :: GUID_LEN <= i < |s| ==> s[i] != '-'
    ensures Text.Split(s, '-') == Groups(s)
  {
    GroupsJoin(s);
    GroupsDashFree(s);
    Text.SplitJoin(Groups(s), '-');
  }

  /** Five dash-separated parts of lengths 8, 4, 4, 4, 12 make a string of
      the GUID length with its dashes exactly at the dash offsets. */
  lemma FiveGroups(s: string)
    requires |Text.Split(s, '-')| == 5
    requires |Text.Split(s, '-')[0]| == 8 && |Text.Split(s, '-')[1]| == 4
    requires |Text.Split(s, '-')[2]| == 4 && |Text.Split(s, '-')[3]| == 4
    requires |Text.Split(s, '-')[4]| == 12
    ensures |s| == GUID_LEN
    ensures forall i :: 0 <= i < GUID_LEN ==> (s[i] == '-' <==> IsDashIndex(i))
    ensures Text.Split(s, '-') == Groups(s)
  {
    var p := Text.Split(s, '-');
    JoinFive(p);
    FiveLayout(s, p);
  }

  /** Five parts joined with dashes. */
  lemma JoinFive(p: seq<string>)
    requires |p| == 5
    ensures Text.Join(p, '-') == p[0] + ['-'] + (p[1] + ['-'] + (p[2] + ['-'] + (p[3] + ['-'] + p[4])))
  {
    assert p[4..] == [p[4]];
    assert p[3..][1..] == p[4..];
    assert Text.Join(p[3..], '-') == p[3] + ['-'] + p[4];
    assert p[2..][1..] == p[3..];
    assert Text.Join(p[2..], '-') == p[2] + ['-'] + (p[3] + ['-'] + p[4]);
    assert p[1..][1..] == p[2..];
    assert Text.Join(p[1..], '-') == p[1] + ['-'] + (p[2] + ['-'] + (p[3] + ['-'] + p[4]));
  }

  /** Dash-free parts of lengths 8, 4, 4, 4 and 12, joined with dashes, are
      the groups of a GUID-length string with its dashes at the dash
      offsets. */
  lemma FiveLayout(s: string, p: seq<string>)
    requires |p| == 5 && |p[0]| == 8 && |p[1]| == 4 && |p[2]| == 4 && |p[3]| == 4 && |p[4]| == 12
    requires forall k :: 0 <= k < |p| ==> '-' !in p[k]
    requires s == p[0] + ['-'] + (p[1] + ['-'] + (p[2] + ['-'] + (p[3] + ['-'] + p[4])))
    ensures |s| == GUID_LEN
    ensures forall i :: 0 <= i < GUID_LEN ==> (s[i] == '-' <==> IsDashIndex(i))
    ensures p == Groups(s)
  {
    assert s[..8] == p[0] && s[9..13] == p[1] && s[14..18] == p[2] && s[19..23] == p[3] && s[24..] == p[4];
    assert s[8] == s[13] == s[18] == s[23] == '-';
    forall i | 0 <= i < GUID_LEN && !IsDashIndex(i)
      ensures s[i] != '-'
    {
      if i < 8 { assert s[i] == s[..8][i]; assert s[i] in p[0]; }
      else if i < 13 { assert s[i] == s[9..13][i - 9]; assert s[i] in p[1]; }
      else if i < 18 { assert s[i] == s[14..18][i - 14]; assert s[i] in p[2]; }
      else if i < 23 { assert s[i] == s[19..23][i - 19]; assert s[i] in p[3]; }
      else { assert s[i] == s[24..][i - 24]; assert s[i] in p[4]; }
    }
  }

  /** One reply at the manual GUID prompt: stripped, matched against
      `UUID_PATTERN`, upper-cased when it matches. */
  function ManualGuid(reply: string): Option<string> {
    var t := Text.Strip(reply);
    if UuidPatternMatch(t) then Some(Text.Upper(t)) else None
  }

  /** A reply is accepted exactly when, stripped, it has the GUID shape
      (stripping removes any final newline, so the pattern's `$` never
      matches before one), and the GUID returned is that reply in upper
      case. */
  lemma ManualGuidIff(reply: string)
    ensures ManualGuid(reply).Some? <==> IsGuidShape(Text.Strip(reply))
    ensures ManualGuid(reply).Some? ==>
      IsUpperGuid(ManualGuid(reply).value)
      && forall i :: 0 <= i < GUID_LEN ==>
        Text.LowerChar(ManualGuid(reply).value[i]) == Text.LowerChar(Text.Strip(reply)[i])
  {
    var t := Text.Strip(reply);
    if |t| == GUID_LEN + 1 {
      assert Text.IsSpace('\n');
    }
    if IsGuidShape(t) {
      var u := Text.Upper(t);
      forall i | 0 <= i < GUID_LEN
        ensures if IsDashIndex(i) then u[i] == '-' else IsUpperHexChar(u[i])
      {
        assert u[i] == Text.UpperChar(t[i]);
      }
    }
  }

  /** The manual prompt ran out of replies without an accepted GUID. */
  const NO_GUID: string := "no valid GUID entered"

  /** The prompt loop over the replies typed, in order: the first reply
      `parse` accepts, `None` when it accepts none. */
  function ManualEntry(replies: seq<string>, parse: string -> Option<string>): Option<string> {
    if replies == [] then None
    else if parse(replies[0]).Some? then parse(replies[0])
    else ManualEntry(replies[1..], parse)
  }

  /** `get_guid_manual`: prompt until a reply is accepted; `used` is the
      number of replies read. */
  method GetGuidManual(replies: seq<string>, parse: string -> Option<string>) returns (guid: Option<string>, used: nat)
    ensures guid == ManualEntry(replies, parse)
    ensures used <= |replies|
    ensures forall i :: 0 <= i < used - 1 ==> parse(replies[i]).None?
    ensures guid.Some? ==> 0 < used && guid == parse(replies[used - 1])
    ensures guid.None? ==> used == |replies| && forall i :: 0 <= i < |replies| ==> parse(replies[i]).None?
  {
    used := 0;
    while used < |replies|
      invariant used <= |replies|
      invariant forall i :: 0 <= i < used ==> parse(replies[i]).None?
      invariant ManualEntry(replies, parse) == ManualEntry(replies[used..], parse)
    {
      assert replies[used..][1..] == replies[used + 1..];
      var g := parse(replies[used]);
      used := used + 1;
      if g.Some? {
        return g, used;
      }
    }
    return None, used;
  }
}
