/** Substring search over sequences: the `find` method of Python's `bytes`
    and `str`, and the two scanning loops built on it in the activators
    (a non-overlapping scan, and a scan that advances one element per hit). */
module Search {

  /** `pat` occurs in `data` at offset `i`. */
  predicate OccursAt<T(==)>(data: seq<T>, pat: seq<T>, i: int) {
    0 <= i && i + |pat| <= |data| && data[i..i + |pat|] == pat
  }

  /** `data.find(pat, from)`: the first occurrence at or after `from`, or -1. */
  function Find<T(==)>(data: seq<T>, pat: seq<T>, from: nat): (r: int)
    ensures r == -1 || from <= r <= r + |pat| <= |data|
    decreases |data| - from
  {
    if from + |pat| > |data| then -1
    else if MatchFrom(data, pat, from, 0) then from
    else Find(data, pat, from + 1)
  }

  /** `pat[k..]` lies in `data` at `i + k`, compared element by element. */
  predicate MatchFrom<T(==)>(data: seq<T>, pat: seq<T>, i: nat, k: nat)
    requires i + |pat| <= |data| && k <= |pat|
    decreases |pat| - k
  {
    k == |pat| || (data[i + k] == pat[k] && MatchFrom(data, pat, i, k + 1))
  }

  /** The element-by-element comparison is the comparison of the slices. */
  lemma {:induction false} MatchFromSlices<T>(data: seq<T>, pat: seq<T>, i: nat, k: nat)
    requires i + |pat| <= |data| && k <= |pat|
    ensures MatchFrom(data, pat, i, k) <==> data[i + k..i + |pat|] == pat[k..]
    decreases |pat| - k
  {
    if k < |pat| {
      MatchFromSlices(data, pat, i, k + 1);
      assert data[i + k..i + |pat|] == [data[i + k]] + data[i + k + 1..i + |pat|];
      assert pat[k..] == [pat[k]] + pat[k + 1..];
    }
  }

  /** `find` reports -1 exactly when no occurrence is left at or after
      `from`, and otherwise the first one. */
  lemma {:induction false} FindSpec<T>(data: seq<T>, pat: seq<T>, from: nat)
    ensures var r := Find(data, pat, from);
      (r == -1 || (from <= r && OccursAt(data, pat, r)))
      && (r == -1 ==> forall i :: from <= i ==> !OccursAt(data, pat, i))
      && (r != -1 ==> forall i :: from <= i < r ==> !OccursAt(data, pat, i))
    decreases |data| - from
  {
    if from + |pat| <= |data| {
      MatchFromSlices(data, pat, from, 0);
      assert pat[0..] == pat;
      if !MatchFrom(data, pat, from, 0) {
        FindSpec(data, pat, from + 1);
      }
    }
  }

  /** The positions visited by `pos = data.find(pat, pos)` followed by
      `pos += len(pat)`: a left-to-right non-overlapping scan
      (also what `re.finditer` yields for a literal pattern). */
  function NonOverlapping<T(==)>(data: seq<T>, pat: seq<T>, from: nat): seq<nat>
    requires |pat| > 0
    decreases |data| - from
  {
    var p := Find(data, pat, from);
    if p == -1 then [] else [p as nat] + NonOverlapping(data, pat, p + |pat|)
  }

  /** The positions visited by `pos = data.find(pat, pos)` followed by
      `pos += 1`: every occurrence. */
  function AllFrom<T(==)>(data: seq<T>, pat: seq<T>, from: nat): seq<nat>
    decreases |data| + 1 - from
  {
    var p := Find(data, pat, from);
    if p == -1 then [] else [p as nat] + AllFrom(data, pat, p + 1)
  }

  /** The non-overlapping scan records only occurrences, in strictly
      increasing order, each at least `|pat|` past the one before. */
  lemma {:induction false} NonOverlappingSound<T>(data: seq<T>, pat: seq<T>, from: nat)
    requires |pat| > 0
    ensures forall k :: 0 <= k < |NonOverlapping(data, pat, from)| ==>
      from <= NonOverlapping(data, pat, from)[k] && OccursAt(data, pat, NonOverlapping(data, pat, from)[k])
    ensures forall k :: 0 < k < |NonOverlapping(data, pat, from)| ==>
      NonOverlapping(data, pat, from)[k - 1] + |pat| <= NonOverlapping(data, pat, from)[k]
    decreases |data| - from
  {
    var p := Find(data, pat, from);
    FindSpec(data, pat, from);
    if p != -1 {
      var next: nat := p + |pat|;
      NonOverlappingSound(data, pat, next);
      var rest := NonOverlapping(data, pat, next);
      var ps := NonOverlapping(data, pat, from);
      assert ps == [p as nat] + rest;
      forall k | 0 <= k < |ps|
        ensures from <= ps[k] && OccursAt(data, pat, ps[k])
      {
        if k > 0 { assert ps[k] == rest[k - 1]; }
      }
      forall k | 0 < k < |ps|
        ensures ps[k - 1] + |pat| <= ps[k]
      {
        assert ps[k] == rest[k - 1];
        if k > 1 { assert ps[k - 1] == rest[k - 2]; }
      }
    }
  }

  /** The non-overlapping scan misses an occurrence only when it overlaps a
      recorded one: every occurrence at `q` lies in `[p, p + |pat|)` for a
      recorded position `p`. */
  lemma {:induction false} NonOverlappingCovers<T>(data: seq<T>, pat: seq<T>, from: nat, q: nat)
    requires |pat| > 0
    requires from <= q && OccursAt(data, pat, q)
    ensures exists k :: (0 <= k < |NonOverlapping(data, pat, from)| &&
                         NonOverlapping(data, pat, from)[k] <= q < NonOverlapping(data, pat, from)[k] + |pat|)
    decreases |data| - from
  {
    var p := Find(data, pat, from);
    FindSpec(data, pat, from);
    var ps := NonOverlapping(data, pat, from);
    assert p != -1 && p <= q;
    var next: nat := p + |pat|;
    var rest := NonOverlapping(data, pat, next);
    assert ps == [p as nat] + rest;
    if q >= next {
      NonOverlappingCovers(data, pat, next, q);
      var k :| 0 <= k < |rest| && rest[k] <= q < rest[k] + |pat|;
      assert ps[k + 1] == rest[k];
    } else {
      assert ps[0] <= q < ps[0] + |pat|;
    }
  }

  /** The one-step scan visits exactly the occurrences at or after `from`. */
  lemma {:induction false} AllFromExact<T>(data: seq<T>, pat: seq<T>, from: nat, q: int)
    ensures q in AllFrom(data, pat, from) <==> from <= q && OccursAt(data, pat, q)
    decreases |data| + 1 - from
  {
    var p := Find(data, pat, from);
    FindAt(data, pat, from, q);
    if p != -1 {
      var next: nat := p + 1;
      AllFromExact(data, pat, next, q);
      InCons(p, AllFrom(data, pat, next), q);
    }
  }

  /** The one-step scan visits the occurrences in strictly increasing order,
      all at or after `from`. */
  lemma {:induction false} AllFromIncreasing<T>(data: seq<T>, pat: seq<T>, from: nat)
    ensures forall k :: 0 <= k < |AllFrom(data, pat, from)| ==> from <= AllFrom(data, pat, from)[k]
    ensures forall k :: 0 < k < |AllFrom(data, pat, from)| ==>
      AllFrom(data, pat, from)[k - 1] < AllFrom(data, pat, from)[k]
    decreases |data| + 1 - from
  {
    var p := Find(data, pat, from);
    FindSpec(data, pat, from);
    if p != -1 {
      var next: nat := p + 1;
      AllFromIncreasing(data, pat, next);
      var rest := AllFrom(data, pat, next);
      var ps := AllFrom(data, pat, from);
      assert ps == [p as nat] + rest;
      forall k | 0 <= k < |ps|
        ensures from <= ps[k]
      {
        if k > 0 { assert ps[k] == rest[k - 1]; }
      }
      forall k | 0 < k < |ps|
        ensures ps[k - 1] < ps[k]
      {
        assert ps[k] == rest[k - 1];
        if k > 1 { assert ps[k - 1] == rest[k - 2]; }
      }
    }
  }

  /** The offsets at or after `from` where `pat` occurs. */
  function Occurrences<T(==)>(data: seq<T>, pat: seq<T>, from: nat): set<nat> {
    set q: nat | from <= q <= |data| && OccursAt(data, pat, q)
  }

  /** The one-step scan makes one hit per occurrence. */
  lemma {:induction false} AllFromCount<T>(data: seq<T>, pat: seq<T>, from: nat)
    ensures |AllFrom(data, pat, from)| == |Occurrences(data, pat, from)|
    decreases |data| + 1 - from
  {
    var p := Find(data, pat, from);
    if p == -1 {
      CountNone(data, pat, from);
    } else {
      AllFromCount(data, pat, p + 1);
      CountNext(data, pat, from);
    }
  }

  /** With nothing left to find there are no hits and no occurrences. */
  lemma CountNone<T>(data: seq<T>, pat: seq<T>, from: nat)
    requires Find(data, pat, from) == -1
    ensures |AllFrom(data, pat, from)| == |Occurrences(data, pat, from)|
  {
    AllFromLength(data, pat, from);
    NoOccurrences(data, pat, from);
  }

  /** One hit and one occurrence more than from just past the first one. */
  lemma CountNext<T>(data: seq<T>, pat: seq<T>, from: nat)
    requires Find(data, pat, from) != -1
    ensures |AllFrom(data, pat, Find(data, pat, from) + 1)| == |Occurrences(data, pat, Find(data, pat, from) + 1)|
      ==> |AllFrom(data, pat, from)| == |Occurrences(data, pat, from)|
  {
    AllFromLength(data, pat, from);
    OccurrencesCount(data, pat, from);
  }

  /** The first occurrence from `from` on, and those after it. */
  lemma OccurrencesCount<T>(data: seq<T>, pat: seq<T>, from: nat)
    requires Find(data, pat, from) != -1
    ensures |Occurrences(data, pat, from)| == 1 + |Occurrences(data, pat, Find(data, pat, from) + 1)|
  {
    OccurrencesFirst(data, pat, from);
    AddFresh(Find(data, pat, from), Occurrences(data, pat, Find(data, pat, from) + 1));
  }

  /** Adding a new position to a set of positions grows it by one. */
  lemma AddFresh(p: nat, s: set<nat>)
    requires p !in s
    ensures |{p} + s| == 1 + |s|
  {
  }

  /** Membership in a list with a hit in front. */
  lemma InCons(p: nat, rest: seq<nat>, q: int)
    ensures q in [p] + rest <==> q == p || q in rest
  {
  }

  /** What `find` tells about one position `q`. */
  lemma FindAt<T>(data: seq<T>, pat: seq<T>, from: nat, q: int)
    ensures Find(data, pat, from) == -1 ==> !(from <= q && OccursAt(data, pat, q))
    ensures Find(data, pat, from) != -1 ==>
      OccursAt(data, pat, Find(data, pat, from))
      && (from <= q < Find(data, pat, from) ==> !OccursAt(data, pat, q))
  {
    FindSpec(data, pat, from);
  }

  /** Nothing is left to find: no occurrence from `from` on. */
  lemma NoOccurrences<T>(data: seq<T>, pat: seq<T>, from: nat)
    requires Find(data, pat, from) == -1
    ensures Occurrences(data, pat, from) == {}
  {
    FindSpec(data, pat, from);
  }

  /** The occurrences from `from` are the first one and those after it. */
  lemma OccurrencesFirst<T>(data: seq<T>, pat: seq<T>, from: nat)
    requires Find(data, pat, from) != -1
    ensures var p := Find(data, pat, from) as nat;
      Occurrences(data, pat, from) == {p} + Occurrences(data, pat, p + 1)
      && p !in Occurrences(data, pat, p + 1)
  {
    FindSpec(data, pat, from);
    var p := Find(data, pat, from) as nat;
    forall q: nat | q in Occurrences(data, pat, from)
      ensures q == p || q in Occurrences(data, pat, p + 1)
    {
    }
  }

  /** One step of the one-step scan: the hit found from `pos` moves from the
      positions still to visit to those seen. */
  lemma AllFromStep<T>(all: seq<nat>, seen: seq<nat>, data: seq<T>, pat: seq<T>, pos: nat)
    requires all == seen + AllFrom(data, pat, pos)
    ensures Find(data, pat, pos) == -1 ==> all == seen
    ensures Find(data, pat, pos) != -1 ==>
      all == (seen + [Find(data, pat, pos) as nat]) + AllFrom(data, pat, Find(data, pat, pos) + 1)
  {
    var p := Find(data, pat, pos);
    if p == -1 {
      assert AllFrom(data, pat, pos) == [];
      assert seen + [] == seen;
    } else {
      var rest := AllFrom(data, pat, p + 1);
      assert AllFrom(data, pat, pos) == [p as nat] + rest;
      assert seen + ([p as nat] + rest) == (seen + [p as nat]) + rest;
    }
  }

  /** The number of hits the one-step scan still has to make from `pos`. */
  lemma AllFromLength<T>(data: seq<T>, pat: seq<T>, pos: nat)
    ensures Find(data, pat, pos) == -1 ==> |AllFrom(data, pat, pos)| == 0
    ensures Find(data, pat, pos) != -1 ==>
      |AllFrom(data, pat, pos)| == 1 + |AllFrom(data, pat, Find(data, pat, pos) + 1)|
  {
  }

  /** The scan ends once `find` reports no occurrence. */
  lemma NonOverlappingEnd<T>(data: seq<T>, pat: seq<T>, pos: nat)
    requires |pat| > 0 && Find(data, pat, pos) == -1
    ensures NonOverlapping(data, pat, pos) == []
  {
  }

  /** A hit at `p` is recorded and the scan resumes at `p + |pat|`. */
  lemma NonOverlappingNext<T>(data: seq<T>, pat: seq<T>, pos: nat, p: nat)
    requires |pat| > 0 && Find(data, pat, pos) == p
    ensures NonOverlapping(data, pat, pos) == [p] + NonOverlapping(data, pat, p + |pat|)
  {
  }

  /** Moving one recorded position from the rest of a scan to its front. */
  lemma Reassociate(seen: seq<nat>, p: nat, rest: seq<nat>)
    ensures seen + ([p] + rest) == (seen + [p]) + rest
  {
  }
}
