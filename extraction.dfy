/** Candidate extraction around anchors, shared by the three activators: a
    window clipped to the buffer around each anchor, the GUID-shaped matches
    in it (scanned left to right, without overlap), each upper-cased and
    kept if the variant's filter `accept` takes it, with its offset from the
    anchor. The variants differ only in the window's reach, the filter and
    how the anchors are found. */
module Extraction {
  import opened Bytes
  import opened GuidShape
  import opened Scoring

  /** The anchor all three activators look for. */
  const BL_DATABASE_MANAGER: seq<byte> := Literal("BLDatabaseManager")

  /** `max(0, p - before)`. */
  function WinStart(p: nat, before: nat): nat {
    if p >= before then p - before else 0
  }

  /** `min(len, p + after)`, also what a Python slice does with an end past
      the buffer. */
  function WinEnd(len: nat, p: nat, after: nat): nat {
    if p + after <= len then p + after else len
  }

  /** `data[max(0, p - before):min(len(data), p + after)]`: at most
      `before + after` bytes, each the byte of `data` at the same offset from
      the window's start, lying within `before` bytes before `p` and short of
      `after` bytes after it; and every byte of `data` in that range is in
      the window. */
  function Window(data: seq<byte>, p: nat, before: nat, after: nat): (w: seq<byte>)
    ensures |w| <= before + after
    ensures forall i :: 0 <= i < |w| ==>
      WinStart(p, before) + i < |data| && p - before <= WinStart(p, before) + i < p + after
      && w[i] == data[WinStart(p, before) + i]
    ensures forall j :: 0 <= j < |data| && p - before <= j < p + after ==>
      WinStart(p, before) <= j < WinStart(p, before) + |w| && w[j - WinStart(p, before)] == data[j]
  {
    var s, e := WinStart(p, before), WinEnd(|data|, p, after);
    if s <= e then data[s..e] else []
  }

  /** The matches at the starts `ms` in `w` that `accept` takes, upper-cased,
      each placed at its start plus `shift`, in scan order. */
  function Accepted(w: seq<byte>, ms: seq<nat>, shift: int, accept: string -> bool): seq<Candidate>
    requires forall k :: 0 <= k < |ms| ==> ShapedAt(w, ms[k])
  {
    if ms == [] then []
    else
      var m := ms[|ms| - 1];
      assert ShapedAt(w, m);
      var g := MatchText(w[m..m + GUID_LEN]);
      var init := Accepted(w, ms[..|ms| - 1], shift, accept);
      if accept(g) then init + [Candidate(g, m + shift)] else init
  }

  /** Scanning one more start adds its candidate, if the filter takes it. */
  lemma AcceptedSnoc(w: seq<byte>, ms: seq<nat>, m: nat, shift: int, accept: string -> bool)
    requires forall k :: 0 <= k < |ms| ==> ShapedAt(w, ms[k])
    requires ShapedAt(w, m)
    ensures forall k :: 0 <= k < |ms + [m]| ==> ShapedAt(w, (ms + [m])[k])
    ensures Accepted(w, ms + [m], shift, accept)
      == Accepted(w, ms, shift, accept)
         + (if accept(MatchText(w[m..m + GUID_LEN])) then [Candidate(MatchText(w[m..m + GUID_LEN]), m + shift)] else [])
  {
    assert (ms + [m])[..|ms|] == ms;
  }

  /** Scanning the start `ms[k]` after the starts before it: the candidate
      list grows by its candidate, if the filter takes it. */
  lemma AcceptedStep(w: seq<byte>, ms: seq<nat>, k: nat, shift: int, accept: string -> bool)
    requires forall i :: 0 <= i < |ms| ==> ShapedAt(w, ms[i])
    requires k < |ms|
    ensures ShapedAt(w, ms[k])
    ensures Accepted(w, ms[..k + 1], shift, accept)
      == Accepted(w, ms[..k], shift, accept)
         + (if accept(MatchText(w[ms[k]..ms[k] + GUID_LEN]))
            then [Candidate(MatchText(w[ms[k]..ms[k] + GUID_LEN]), ms[k] + shift)] else [])
  {
    AcceptedSnoc(w, ms[..k], ms[k], shift, accept);
    assert ms[..k + 1] == ms[..k] + [ms[k]];
  }

  /** The candidates around one anchor at `p`. */
  function AnchorCandidates(data: seq<byte>, p: nat, before: nat, after: nat, accept: string -> bool)
    : seq<Candidate>
  {
    var w := Window(data, p, before, after);
    MatchStartsSound(w, 0);
    Accepted(w, MatchStarts(w, 0), WinStart(p, before) - p, accept)
  }

  /** The candidates around every anchor, anchor by anchor. */
  function AllCandidates(data: seq<byte>, anchors: seq<nat>, before: nat, after: nat,
                         accept: string -> bool): seq<Candidate>
  {
    if anchors == [] then []
    else
      AllCandidates(data, anchors[..|anchors| - 1], before, after, accept)
        + AnchorCandidates(data, anchors[|anchors| - 1], before, after, accept)
  }

  /** The extraction loop around one anchor: cut the window, walk the
      pattern's matches left to right, keep those `accept` takes. */
  method ExtractAround(data: seq<byte>, p: nat, before: nat, after: nat, accept: string -> bool)
    returns (cs: seq<Candidate>)
    ensures cs == AnchorCandidates(data, p, before, after, accept)
  {
    var start := if p >= before then p - before else 0;
    var end := if p + after <= |data| then p + after else |data|;
    var w := if start <= end then data[start..end] else [];
    assert start == WinStart(p, before) && w == Window(data, p, before, after);
    var ms := MatchStarts(w, 0);
    MatchStartsSound(w, 0);
    cs := AcceptMatches(w, ms, start - p, accept);
  }

  /** The loop over the matches of one window: each match upper-cased and
      kept, at its start plus `shift`, when `accept` takes it. */
  method AcceptMatches(w: seq<byte>, ms: seq<nat>, shift: int, accept: string -> bool)
    returns (cs: seq<Candidate>)
    requires forall i :: 0 <= i < |ms| ==> ShapedAt(w, ms[i])
    ensures cs == Accepted(w, ms, shift, accept)
  {
    cs := [];
    for k := 0 to |ms|
      invariant cs == Accepted(w, ms[..k], shift, accept)
    {
      var m := ms[k];
      AcceptedStep(w, ms, k, shift, accept);
      var guid := MatchText(w[m..m + GUID_LEN]);
      if accept(guid) {
        cs := cs + [Candidate(guid, m + shift)];
      }
    }
    assert ms[..|ms|] == ms;
  }

  /** One more anchor adds its candidates at the end. */
  lemma AllCandidatesSnoc(data: seq<byte>, anchors: seq<nat>, p: nat, before: nat, after: nat,
                          accept: string -> bool)
    ensures AllCandidates(data, anchors + [p], before, after, accept)
      == AllCandidates(data, anchors, before, after, accept) + AnchorCandidates(data, p, before, after, accept)
  {
    assert (anchors + [p])[..|anchors|] == anchors;
  }

  /** `c` is the upper-cased text of a match starting at `m` in `w`, accepted
      by the filter and placed at `m + shift`. */
  predicate FromMatch(w: seq<byte>, m: int, shift: int, accept: string -> bool, c: Candidate) {
    ShapedAt(w, m) && c.position == m + shift
    && c.guid == MatchText(w[m..m + GUID_LEN]) && accept(c.guid)
  }

  /** The accepted candidates are exactly the accepted matches: each comes
      from one of the scanned starts, and each scanned start whose match the
      filter takes gives one. */
  lemma {:induction false} AcceptedExact(w: seq<byte>, ms: seq<nat>, shift: int, accept: string -> bool,
                                         c: Candidate)
    requires forall k :: 0 <= k < |ms| ==> ShapedAt(w, ms[k])
    ensures c in Accepted(w, ms, shift, accept) <==>
      exists k :: 0 <= k < |ms| && FromMatch(w, ms[k], shift, accept, c)
  {
    if ms != [] {
      var init := ms[..|ms| - 1];
      var m := ms[|ms| - 1];
      AcceptedExact(w, init, shift, accept, c);
      if exists k :: 0 <= k < |ms| && FromMatch(w, ms[k], shift, accept, c) {
        var k :| 0 <= k < |ms| && FromMatch(w, ms[k], shift, accept, c);
        if k < |init| {
          assert init[k] == ms[k];
        }
      }
      if c in Accepted(w, init, shift, accept) {
        var k :| 0 <= k < |init| && FromMatch(w, init[k], shift, accept, c);
        assert ms[k] == init[k];
      }
    }
  }

  /** Every candidate is an accepted, upper-case GUID equal to the
      upper-cased window bytes at its offset. */
  lemma {:induction false} AcceptedSound(w: seq<byte>, ms: seq<nat>, shift: int, accept: string -> bool)
    requires forall k :: 0 <= k < |ms| ==> ShapedAt(w, ms[k])
    ensures forall i :: 0 <= i < |Accepted(w, ms, shift, accept)| ==>
      FromMatch(w, Accepted(w, ms, shift, accept)[i].position - shift, shift, accept,
                Accepted(w, ms, shift, accept)[i])
  {
    var cs := Accepted(w, ms, shift, accept);
    forall i | 0 <= i < |cs|
      ensures FromMatch(w, cs[i].position - shift, shift, accept, cs[i])
    {
      assert cs[i] in cs;
      AcceptedExact(w, ms, shift, accept, cs[i]);
    }
  }

  /** A candidate of the anchor at `p`: its whole 36-byte match lies in the
      clipped window, its position is its offset from the anchor, its GUID is
      the upper-cased buffer bytes there, upper-case and accepted. */
  predicate NearAnchor(data: seq<byte>, p: nat, before: nat, after: nat, accept: string -> bool,
                       c: Candidate)
  {
    WinStart(p, before) <= p + c.position
    && p + c.position + GUID_LEN <= WinEnd(|data|, p, after)
    && ShapedBytes(data[p + c.position..p + c.position + GUID_LEN])
    && c.guid == MatchText(data[p + c.position..p + c.position + GUID_LEN])
    && IsUpperGuid(c.guid) && accept(c.guid)
  }

  lemma NearAnchorOfMatch(data: seq<byte>, p: nat, before: nat, after: nat, accept: string -> bool,
                          c: Candidate)
    requires WinStart(p, before) <= WinEnd(|data|, p, after)
    requires FromMatch(Window(data, p, before, after), c.position - (WinStart(p, before) - p),
                       WinStart(p, before) - p, accept, c)
    ensures NearAnchor(data, p, before, after, accept, c)
  {
    var s, e := WinStart(p, before), WinEnd(|data|, p, after);
    var w := Window(data, p, before, after);
    var m := c.position - (s - p);
    assert w == data[s..e];
    assert s + m == p + c.position;
    assert w[m..m + GUID_LEN] == data[s + m..s + m + GUID_LEN];
    MatchTextIsUpperGuid(w[m..m + GUID_LEN]);
  }

  lemma AnchorCandidatesSound(data: seq<byte>, p: nat, before: nat, after: nat, accept: string -> bool)
    ensures forall i :: 0 <= i < |AnchorCandidates(data, p, before, after, accept)| ==>
      NearAnchor(data, p, before, after, accept, AnchorCandidates(data, p, before, after, accept)[i])
  {
    var w := Window(data, p, before, after);
    var shift := WinStart(p, before) - p;
    MatchStartsSound(w, 0);
    var ms := MatchStarts(w, 0);
    var cs := AnchorCandidates(data, p, before, after, accept);
    assert cs == Accepted(w, ms, shift, accept);
    if WinStart(p, before) > WinEnd(|data|, p, after) {
      assert w == [];
      ShortWindowNoMatch(w, 0);
      assert cs == [];
    } else {
      AcceptedSound(w, ms, shift, accept);
      forall i | 0 <= i < |cs|
        ensures NearAnchor(data, p, before, after, accept, cs[i])
      {
        NearAnchorOfMatch(data, p, before, after, accept, cs[i]);
      }
    }
  }

  /** Every candidate of all anchors belongs to one anchor. */
  lemma {:induction false} AllCandidatesFrom(data: seq<byte>, anchors: seq<nat>, before: nat, after: nat,
                                             accept: string -> bool, c: Candidate)
    requires c in AllCandidates(data, anchors, before, after, accept)
    ensures exists a :: 0 <= a < |anchors| && c in AnchorCandidates(data, anchors[a], before, after, accept)
  {
    var init := anchors[..|anchors| - 1];
    var last := |anchors| - 1;
    if c in AllCandidates(data, init, before, after, accept) {
      AllCandidatesFrom(data, init, before, after, accept, c);
      var a :| 0 <= a < |init| && c in AnchorCandidates(data, init[a], before, after, accept);
      assert anchors[a] == init[a];
    } else {
      assert c in AnchorCandidates(data, anchors[last], before, after, accept);
    }
  }

  /** So every candidate of all anchors lies near one of them. */
  lemma AllCandidatesSound(data: seq<byte>, anchors: seq<nat>, before: nat, after: nat, accept: string -> bool)
    ensures forall i :: 0 <= i < |AllCandidates(data, anchors, before, after, accept)| ==>
      exists a :: 0 <= a < |anchors|
        && NearAnchor(data, anchors[a], before, after, accept, AllCandidates(data, anchors, before, after, accept)[i])
  {
    var all := AllCandidates(data, anchors, before, after, accept);
    forall i | 0 <= i < |all|
      ensures exists a :: 0 <= a < |anchors| && NearAnchor(data, anchors[a], before, after, accept, all[i])
    {
      AllCandidatesFrom(data, anchors, before, after, accept, all[i]);
      var a :| 0 <= a < |anchors| && all[i] in AnchorCandidates(data, anchors[a], before, after, accept);
      var cs := AnchorCandidates(data, anchors[a], before, after, accept);
      AnchorCandidatesSound(data, anchors[a], before, after, accept);
      var j :| 0 <= j < |cs| && cs[j] == all[i];
      assert NearAnchor(data, anchors[a], before, after, accept, cs[j]);
    }
  }

  /** Every candidate kept around the anchors is an upper-case GUID that
      the check accepts. */
  lemma AllCandidatesAccepted(data: seq<byte>, anchors: seq<nat>, before: nat, after: nat,
                              accept: string -> bool, i: nat)
    requires i < |AllCandidates(data, anchors, before, after, accept)|
    ensures IsUpperGuid(AllCandidates(data, anchors, before, after, accept)[i].guid)
    ensures accept(AllCandidates(data, anchors, before, after, accept)[i].guid)
  {
    AllCandidatesSound(data, anchors, before, after, accept);
    var a :| 0 <= a < |anchors|
      && NearAnchor(data, anchors[a], before, after, accept, AllCandidates(data, anchors, before, after, accept)[i]);
  }
}
