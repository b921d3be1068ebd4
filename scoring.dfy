/** Grouping GUID candidates and ranking them: the shared core of the three
    confidence scorers. `Distinct` is the key order of a `collections.Counter`
    (first appearance), `SortDesc` is `list.sort(key=score, reverse=True)`
    (stable, so equal scores keep their order), and `FirstMaxIndex` is
    `max(..., key=score)` (the first maximal element), which is what
    `Counter.most_common(1)` returns. */
module Scoring {

  /** A GUID found near an anchor, with its signed offset from the anchor. */
  datatype Candidate = Candidate(guid: string, position: int)

  /** The scoring constants: `perOccurrence * count`, plus `closeBonus` per
      occurrence with `|position| < closeLimit`, plus `beforeBonus` per
      occurrence with `position < 0`. */
  datatype Weights = Weights(perOccurrence: int, closeLimit: int, closeBonus: int, beforeBonus: int)

  /** One row `(guid, score, count)` of a ranking. */
  datatype Entry = Entry(guid: string, score: int, count: nat)

  function Guids(cs: seq<Candidate>): (gs: seq<string>)
    ensures |gs| == |cs| && forall i :: 0 <= i < |cs| ==> gs[i] == cs[i].guid
  {
    seq(|cs|, i requires 0 <= i < |cs| => cs[i].guid)
  }

  /** The distinct elements of `s` in the order of their first appearance. */
  function Distinct(s: seq<string>): (d: seq<string>)
    ensures forall x :: x in d <==> x in s
    ensures forall i, j :: 0 <= i < j < |d| ==> d[i] != d[j]
  {
    if s == [] then []
    else
      var d := Distinct(s[..|s| - 1]);
      assert forall x :: x in s <==> x in s[..|s| - 1] || x == s[|s| - 1] by {
        assert s == s[..|s| - 1] + [s[|s| - 1]];
      }
      if s[|s| - 1] in d then d else d + [s[|s| - 1]]
  }

  /** The number of occurrences of `x` in `s`. */
  function Count(s: seq<string>, x: string): nat {
    if s == [] then 0 else Count(s[..|s| - 1], x) + (if s[|s| - 1] == x then 1 else 0)
  }

  /** The index of the first occurrence of `x` in `s`. */
  function FirstIndex(s: seq<string>, x: string): (k: nat)
    requires x in s
    ensures k < |s| && s[k] == x && x !in s[..k]
  {
    if s[0] == x then 0 else FirstIndex(s[1..], x) + 1
  }

  /** The number of candidates for `g` whose offset is below `limit` in
      absolute value. */
  function CountClose(cs: seq<Candidate>, g: string, limit: int): nat {
    if cs == [] then 0
    else
      var c := cs[|cs| - 1];
      CountClose(cs[..|cs| - 1], g, limit)
        + (if c.guid == g && -limit < c.position < limit then 1 else 0)
  }

  /** The number of candidates for `g` found before their anchor. */
  function CountBefore(cs: seq<Candidate>, g: string): nat {
    if cs == [] then 0
    else
      var c := cs[|cs| - 1];
      CountBefore(cs[..|cs| - 1], g) + (if c.guid == g && c.position < 0 then 1 else 0)
  }

  function Score(cs: seq<Candidate>, g: string, w: Weights): int {
    w.perOccurrence * Count(Guids(cs), g)
      + w.closeBonus * CountClose(cs, g, w.closeLimit)
      + w.beforeBonus * CountBefore(cs, g)
  }

  function EntryFor(cs: seq<Candidate>, g: string, w: Weights): Entry {
    Entry(g, Score(cs, g, w), Count(Guids(cs), g))
  }

  /** One entry per key, in key order. */
  function EntriesOf(cs: seq<Candidate>, keys: seq<string>, w: Weights): (es: seq<Entry>)
    ensures |es| == |keys|
  {
    seq(|keys|, i requires 0 <= i < |keys| => EntryFor(cs, keys[i], w))
  }

  /** The unsorted ranking: one entry per key of the counter, in key order. */
  function Entries(cs: seq<Candidate>, w: Weights): seq<Entry> {
    EntriesOf(cs, Distinct(Guids(cs)), w)
  }

  /** The ranking: the entries sorted by score, highest first, stably. */
  function Ranking(cs: seq<Candidate>, w: Weights): seq<Entry> {
    SortDesc(Entries(cs, w))
  }

  // ---------------------------------------------------------------------
  // Counting facts

  lemma {:induction false} CountAppend(a: seq<string>, b: seq<string>, x: string)
    ensures Count(a + b, x) == Count(a, x) + Count(b, x)
    decreases |b|
  {
    if b == [] {
      assert a + b == a;
    } else {
      assert (a + b)[..|a + b| - 1] == a + b[..|b| - 1];
      CountAppend(a, b[..|b| - 1], x);
    }
  }

  lemma {:induction false} CountAbsent(s: seq<string>, x: string)
    requires x !in s
    ensures Count(s, x) == 0
  {
    if s != [] {
      assert x !in s[..|s| - 1];
      CountAbsent(s[..|s| - 1], x);
    }
  }

  function SumCounts(es: seq<Entry>): int {
    if es == [] then 0 else es[0].count + SumCounts(es[1..])
  }

  lemma {:induction false} SumCountsAppend(a: seq<Entry>, b: seq<Entry>)
    ensures SumCounts(a + b) == SumCounts(a) + SumCounts(b)
    decreases |a|
  {
    if a != [] {
      assert (a + b)[0] == a[0];
      assert (a + b)[1..] == a[1..] + b;
      SumCountsAppend(a[1..], b);
    } else {
      assert a + b == b;
    }
  }

  /** Summing `Count(s, g)` over the keys of the counter gives `|s|`. */
  lemma {:induction false} CountsCoverAll(s: seq<string>)
    ensures SumOver(s, Distinct(s)) == |s|
  {
    if s != [] {
      var init := s[..|s| - 1];
      var x := s[|s| - 1];
      assert s == init + [x];
      CountsCoverAll(init);
      var d := Distinct(init);
      SumOverShift(init, x, d);
      if x in d {
        SumOverHit(init, x, d);
      } else {
        assert Distinct(s) == d + [x];
        CountAbsent(init, x);
        CountAbsent(d, x);
        SumOverSnoc(s, d, x);
        SumOverShift(init, x, d);
        CountAppend(init, [x], x);
        assert Count([x], x) == 1 by { assert [x][..0] == []; }
      }
    }
  }

  /** `sum(Count(s, g) for g in keys)`. */
  function SumOver(s: seq<string>, keys: seq<string>): int {
    if keys == [] then 0 else Count(s, keys[0]) + SumOver(s, keys[1..])
  }

  lemma {:induction false} SumOverSnoc(s: seq<string>, keys: seq<string>, k: string)
    ensures SumOver(s, keys + [k]) == SumOver(s, keys) + Count(s, k)
    decreases |keys|
  {
    if keys != [] {
      assert (keys + [k])[1..] == keys[1..] + [k];
      SumOverSnoc(s, keys[1..], k);
    } else {
      assert [] + [k] == [k];
    }
  }

  /** Appending `x` to `init` adds, over any keys, one for each key equal to `x`. */
  lemma {:induction false} SumOverShift(init: seq<string>, x: string, keys: seq<string>)
    ensures SumOver(init + [x], keys) == SumOver(init, keys) + Count(keys, x)
    decreases |keys|
  {
    if keys != [] {
      SumOverShift(init, x, keys[1..]);
      CountAppend(init, [x], keys[0]);
      assert keys == [keys[0]] + keys[1..];
      CountAppend([keys[0]], keys[1..], x);
      assert Count([keys[0]], x) == (if keys[0] == x then 1 else 0) by {
        assert [keys[0]][..0] == [];
      }
    }
  }

  /** A key list without duplicates counts `x` once if it holds it. */
  lemma {:induction false} SumOverHit(init: seq<string>, x: string, keys: seq<string>)
    requires x in keys
    requires forall i, j :: 0 <= i < j < |keys| ==> keys[i] != keys[j]
    ensures Count(keys, x) == 1
    decreases |keys|
  {
    var last := keys[|keys| - 1];
    var rest := keys[..|keys| - 1];
    if last == x {
      assert x !in rest;
      CountAbsent(rest, x);
    } else {
      assert x in rest;
      SumOverHit(init, x, rest);
    }
  }

  // ---------------------------------------------------------------------
  // Stable descending sort

  /** Inserts `x` after every element scoring at least as much as `x`. */
  function Insert(x: Entry, s: seq<Entry>): seq<Entry> {
    if s == [] then [x]
    else if s[0].score >= x.score then [s[0]] + Insert(x, s[1..])
    else [x] + s
  }

  /** `sorted(s, key=score, reverse=True)`: a stable insertion sort. */
  function SortDesc(s: seq<Entry>): seq<Entry> {
    if s == [] then [] else Insert(s[|s| - 1], SortDesc(s[..|s| - 1]))
  }

  predicate SortedDesc(s: seq<Entry>) {
    forall i, j :: 0 <= i < j < |s| ==> s[i].score >= s[j].score
  }

  /** The entries of `s` with score `v`, in order. */
  function WithScore(s: seq<Entry>, v: int): seq<Entry> {
    if s == [] then [] else (if s[0].score == v then [s[0]] else []) + WithScore(s[1..], v)
  }

  lemma {:induction false} WithScoreAppend(a: seq<Entry>, b: seq<Entry>, v: int)
    ensures WithScore(a + b, v) == WithScore(a, v) + WithScore(b, v)
    decreases |a|
  {
    if a != [] {
      assert (a + b)[1..] == a[1..] + b;
      WithScoreAppend(a[1..], b, v);
    } else {
      assert a + b == b;
    }
  }

  lemma {:induction false} WithScoreNone(s: seq<Entry>, v: int)
    requires forall i :: 0 <= i < |s| ==> s[i].score != v
    ensures WithScore(s, v) == []
  {
    if s != [] { WithScoreNone(s[1..], v); }
  }

  /** Every element of `Insert(x, s)` is `x` or an element of `s`. */
  lemma {:induction false} InsertFrom(x: Entry, s: seq<Entry>)
    ensures forall y :: y in Insert(x, s) ==> y == x || y in s
    decreases |s|
  {
    if s != [] && s[0].score >= x.score {
      InsertFrom(x, s[1..]);
      assert Insert(x, s) == [s[0]] + Insert(x, s[1..]);
      assert s == [s[0]] + s[1..];
    }
  }

  /** Inserting adds `x` and nothing else. */
  lemma {:induction false} InsertPerm(x: Entry, s: seq<Entry>)
    ensures multiset(Insert(x, s)) == multiset(s) + multiset{x}
    decreases |s|
  {
    if s != [] && s[0].score >= x.score {
      InsertPerm(x, s[1..]);
      assert Insert(x, s) == [s[0]] + Insert(x, s[1..]);
      assert s == [s[0]] + s[1..];
    } else if s != [] {
      assert Insert(x, s) == [x] + s;
    }
  }

  lemma {:induction false} InsertSorted(x: Entry, s: seq<Entry>)
    requires SortedDesc(s)
    ensures SortedDesc(Insert(x, s))
    ensures multiset(Insert(x, s)) == multiset(s) + multiset{x}
    decreases |s|
  {
    InsertPerm(x, s);
    if s != [] && s[0].score >= x.score {
      var t := s[1..];
      InsertSorted(x, t);
      InsertFrom(x, t);
      var it := Insert(x, t);
      assert Insert(x, s) == [s[0]] + it;
      forall j | 0 <= j < |it|
        ensures s[0].score >= it[j].score
      {
        assert it[j] in it;
        if it[j] != x {
          var k :| 0 <= k < |t| && t[k] == it[j];
          assert s[k + 1] == t[k];
        }
      }
    }
  }

  /** The scores of a sorted list are at most its head's. */
  lemma BelowHead(s: seq<Entry>, v: int)
    requires SortedDesc(s) && s != [] && s[0].score < v
    ensures forall i :: 0 <= i < |s| ==> s[i].score != v
  {
  }

  /** `WithScore` of a list with one more entry in front. */
  lemma WithScoreCons(y: Entry, s: seq<Entry>, v: int)
    ensures WithScore([y] + s, v) == (if y.score == v then [y] else []) + WithScore(s, v)
  {
    assert ([y] + s)[1..] == s;
  }

  /** The step of `InsertStable` where `x` goes after the head. */
  lemma InsertStableBehind(x: Entry, s: seq<Entry>, v: int)
    requires s != [] && s[0].score >= x.score
    requires WithScore(Insert(x, s[1..]), v) == WithScore(s[1..], v) + (if x.score == v then [x] else [])
    ensures WithScore(Insert(x, s), v) == WithScore(s, v) + (if x.score == v then [x] else [])
  {
    var t := s[1..];
    assert Insert(x, s) == [s[0]] + Insert(x, t);
    assert s == [s[0]] + t;
    WithScoreCons(s[0], Insert(x, t), v);
    WithScoreCons(s[0], t, v);
  }

  lemma {:induction false} InsertStable(x: Entry, s: seq<Entry>, v: int)
    requires SortedDesc(s)
    ensures WithScore(Insert(x, s), v) == WithScore(s, v) + (if x.score == v then [x] else [])
    decreases |s|
  {
    if s == [] {
      WithScoreCons(x, [], v);
      assert [x] + [] == [x];
    } else if s[0].score >= x.score {
      InsertStable(x, s[1..], v);
      InsertStableBehind(x, s, v);
    } else {
      assert Insert(x, s) == [x] + s;
      WithScoreCons(x, s, v);
      if x.score == v {
        BelowHead(s, v);
        WithScoreNone(s, v);
      }
    }
  }

  lemma {:induction false} InsertSum(x: Entry, s: seq<Entry>)
    ensures SumCounts(Insert(x, s)) == SumCounts(s) + x.count
    decreases |s|
  {
    if s != [] && s[0].score >= x.score {
      InsertSum(x, s[1..]);
      assert ([s[0]] + Insert(x, s[1..]))[1..] == Insert(x, s[1..]);
    } else if s != [] {
      assert ([x] + s)[1..] == s;
    }
  }

  /** The sort orders by score, non-increasing, and is a permutation. */
  lemma {:induction false} SortDescSorted(s: seq<Entry>)
    ensures SortedDesc(SortDesc(s))
    ensures multiset(SortDesc(s)) == multiset(s)
  {
    if s != [] {
      var init := s[..|s| - 1];
      var x := s[|s| - 1];
      assert s == init + [x];
      SortDescSorted(init);
      InsertSorted(x, SortDesc(init));
    }
  }

  /** The sort is stable: the entries of any one score keep their order. */
  lemma {:induction false} SortDescStable(s: seq<Entry>, v: int)
    ensures WithScore(SortDesc(s), v) == WithScore(s, v)
  {
    if s != [] {
      var init := s[..|s| - 1];
      var x := s[|s| - 1];
      assert s == init + [x];
      SortDescSorted(init);
      SortDescStable(init, v);
      InsertStable(x, SortDesc(init), v);
      WithScoreAppend(init, [x], v);
      assert WithScore([x], v) == (if x.score == v then [x] else []) by {
        assert [x][1..] == [];
      }
    }
  }

  /** The sort keeps the total of the counts. */
  lemma {:induction false} SortDescSum(s: seq<Entry>)
    ensures SumCounts(SortDesc(s)) == SumCounts(s)
  {
    if s != [] {
      var init := s[..|s| - 1];
      var x := s[|s| - 1];
      assert s == init + [x];
      SortDescSum(init);
      InsertSum(x, SortDesc(init));
      SumCountsAppend(init, [x]);
      assert SumCounts([x]) == x.count by { assert [x][1..] == []; }
    }
  }

  /** The position of `max(s, key=score)`: the first entry of maximal score. */
  function FirstMaxIndex(s: seq<Entry>): (k: nat)
    requires s != []
    ensures k < |s|
    ensures forall i :: 0 <= i < |s| ==> s[i].score <= s[k].score
    ensures forall i :: 0 <= i < k ==> s[i].score < s[k].score
  {
    if |s| == 1 then 0
    else
      var k := FirstMaxIndex(s[..|s| - 1]);
      if s[|s| - 1].score > s[k].score then |s| - 1 else k
  }

  /** A list that starts with score `v` lists its head first among the
      entries of score `v`. */
  lemma WithScoreHead(s: seq<Entry>, v: int)
    requires s != [] && s[0].score == v
    ensures WithScore(s, v) != [] && WithScore(s, v)[0] == s[0]
  {
    assert WithScore(s, v) == [s[0]] + WithScore(s[1..], v);
  }

  /** The first entry of maximal score is the first of its score. */
  lemma FirstOfMaxScore(s: seq<Entry>)
    requires s != []
    ensures WithScore(s, s[FirstMaxIndex(s)].score) != []
    ensures WithScore(s, s[FirstMaxIndex(s)].score)[0] == s[FirstMaxIndex(s)]
  {
    var k := FirstMaxIndex(s);
    var v := s[k].score;
    assert s == s[..k] + s[k..];
    WithScoreAppend(s[..k], s[k..], v);
    WithScoreNone(s[..k], v);
    WithScoreHead(s[k..], v);
  }

  /** The head of the sort carries the maximal score. */
  lemma SortDescHeadScore(s: seq<Entry>)
    requires s != []
    ensures SortDesc(s) != [] && SortDesc(s)[0].score == s[FirstMaxIndex(s)].score
  {
    var m := s[FirstMaxIndex(s)];
    var t := SortDesc(s);
    SortDescSorted(s);
    assert m in multiset(t);
    assert t[0] in multiset(s);
    var j :| 0 <= j < |t| && t[j] == m;
    var i :| 0 <= i < |s| && s[i] == t[0];
  }

  /** The head of the stable descending sort is the first entry of maximal
      score. */
  lemma SortDescHead(s: seq<Entry>)
    requires s != []
    ensures SortDesc(s) != [] && SortDesc(s)[0] == s[FirstMaxIndex(s)]
  {
    var v := s[FirstMaxIndex(s)].score;
    SortDescHeadScore(s);
    SortDescStable(s, v);
    WithScoreHead(SortDesc(s), v);
    FirstOfMaxScore(s);
  }

  /** Keys of the counter come in the order of first appearance. */
  lemma {:induction false} DistinctOrder(s: seq<string>, i: int, j: int)
    requires 0 <= i < j < |Distinct(s)|
    ensures Distinct(s)[i] in s && Distinct(s)[j] in s
    ensures FirstIndex(s, Distinct(s)[i]) < FirstIndex(s, Distinct(s)[j])
  {
    var init := s[..|s| - 1];
    var x := s[|s| - 1];
    var d := Distinct(init);
    assert s == init + [x];
    if Distinct(s)[j] in d {
      assert Distinct(s)[i] in d;
      var ii :| 0 <= ii < |d| && d[ii] == Distinct(s)[i];
      var jj :| 0 <= jj < |d| && d[jj] == Distinct(s)[j];
      if x in d {
        assert ii == i && jj == j;
      } else {
        assert Distinct(s) == d + [x];
        assert ii == i && jj == j;
      }
      DistinctOrder(init, i, j);
      FirstIndexPrefix(init, x, d[i]);
      FirstIndexPrefix(init, x, d[j]);
    } else {
      assert x !in d && Distinct(s) == d + [x] && j == |d|;
      assert Distinct(s)[i] in init;
      FirstIndexPrefix(init, x, Distinct(s)[i]);
      assert x !in init;
      FirstIndexLast(init, x);
    }
  }

  lemma FirstIndexPrefix(init: seq<string>, x: string, y: string)
    requires y in init
    ensures y in init + [x] && FirstIndex(init + [x], y) == FirstIndex(init, y)
  {
    var k := FirstIndex(init, y);
    assert (init + [x])[k] == y;
  }

  lemma FirstIndexLast(init: seq<string>, x: string)
    requires x !in init
    ensures x in init + [x] && FirstIndex(init + [x], x) == |init|
  {
    assert (init + [x])[|init|] == x;
  }

  // ---------------------------------------------------------------------
  // Facts about the ranking

  lemma {:induction false} SumCountsEntries(cs: seq<Candidate>, keys: seq<string>, w: Weights)
    ensures SumCounts(EntriesOf(cs, keys, w)) == SumOver(Guids(cs), keys)
    decreases |keys|
  {
    if keys != [] {
      SumCountsEntries(cs, keys[1..], w);
      assert EntriesOf(cs, keys, w)[1..] == EntriesOf(cs, keys[1..], w);
    }
  }

  /** An element repeated at two indices occurs at least twice. */
  lemma Twice<T>(s: seq<T>, i: nat, j: nat)
    requires i < j < |s| && s[i] == s[j]
    ensures multiset(s)[s[i]] >= 2
  {
    assert s == s[..j] + [s[j]] + s[j + 1..];
    assert s[..j][i] == s[i];
    assert s[i] in multiset(s[..j]);
  }

  /** In a sequence without repetitions every element occurs at most once. */
  lemma {:induction false} Once<T>(s: seq<T>, x: T)
    requires forall i, j :: 0 <= i < j < |s| ==> s[i] != s[j]
    ensures multiset(s)[x] <= 1
  {
    if s != [] {
      assert s == [s[0]] + s[1..];
      Once(s[1..], x);
      if x == s[0] {
        assert x !in s[1..] by {
          forall k | 0 <= k < |s[1..]| ensures s[1..][k] != x { assert s[1..][k] == s[k + 1]; }
        }
      }
    }
  }

  /** Every ranked entry is the entry of one key of the counter. */
  lemma RankingFromKeys(cs: seq<Candidate>, w: Weights, i: nat)
    requires i < |Ranking(cs, w)|
    ensures Ranking(cs, w)[i].guid in Guids(cs)
    ensures Ranking(cs, w)[i] == EntryFor(cs, Ranking(cs, w)[i].guid, w)
  {
    var keys := Distinct(Guids(cs));
    var es := Entries(cs, w);
    var r := Ranking(cs, w);
    SortDescSorted(es);
    assert r[i] in multiset(r);
    assert r[i] in es;
    var k :| 0 <= k < |es| && es[k] == r[i];
    assert es[k] == EntryFor(cs, keys[k], w);
  }

  /** Every GUID among the candidates has an entry in the ranking. */
  lemma RankingCovers(cs: seq<Candidate>, w: Weights, g: string) returns (i: nat)
    requires g in Guids(cs)
    ensures i < |Ranking(cs, w)| && Ranking(cs, w)[i].guid == g
  {
    var keys := Distinct(Guids(cs));
    var es := Entries(cs, w);
    var r := Ranking(cs, w);
    SortDescSorted(es);
    var k :| 0 <= k < |keys| && keys[k] == g;
    assert es[k] in multiset(es);
    assert es[k] in r;
    i :| 0 <= i < |r| && r[i] == es[k];
  }

  /** No GUID has two entries. */
  lemma RankingDistinct(cs: seq<Candidate>, w: Weights, i: nat, j: nat)
    requires i < j < |Ranking(cs, w)|
    ensures Ranking(cs, w)[i].guid != Ranking(cs, w)[j].guid
  {
    var keys := Distinct(Guids(cs));
    var es := Entries(cs, w);
    var r := Ranking(cs, w);
    if r[i].guid == r[j].guid {
      RankingFromKeys(cs, w, i);
      RankingFromKeys(cs, w, j);
      SortDescSorted(es);
      Twice(r, i, j);
      forall a, b | 0 <= a < b < |es| ensures es[a] != es[b] {
        assert es[a].guid == keys[a] && es[b].guid == keys[b];
      }
      Once(es, r[i]);
      assert false;
    }
  }

  /** The ranking holds exactly one entry per distinct GUID of the
      candidates, each entry's score and count are those of its GUID, the
      counts add up to the number of candidates, and the scores do not
      increase. */
  lemma RankingEntries(cs: seq<Candidate>, w: Weights)
    ensures forall g :: g in Guids(cs) <==>
      exists i :: 0 <= i < |Ranking(cs, w)| && Ranking(cs, w)[i].guid == g
    ensures forall i :: 0 <= i < |Ranking(cs, w)| ==>
      Ranking(cs, w)[i] == EntryFor(cs, Ranking(cs, w)[i].guid, w)
    ensures forall i, j :: 0 <= i < j < |Ranking(cs, w)| ==> Ranking(cs, w)[i].guid != Ranking(cs, w)[j].guid
    ensures SumCounts(Ranking(cs, w)) == |cs|
    ensures SortedDesc(Ranking(cs, w))
  {
    var es := Entries(cs, w);
    var r := Ranking(cs, w);
    SortDescSorted(es);
    SortDescSum(es);
    SumCountsEntries(cs, Distinct(Guids(cs)), w);
    CountsCoverAll(Guids(cs));
    assert |Guids(cs)| == |cs|;
    forall i | 0 <= i < |r|
      ensures r[i].guid in Guids(cs) && r[i] == EntryFor(cs, r[i].guid, w)
    {
      RankingFromKeys(cs, w, i);
    }
    forall g | g in Guids(cs)
      ensures exists i :: 0 <= i < |r| && r[i].guid == g
    {
      var i := RankingCovers(cs, w, g);
    }
    forall i, j | 0 <= i < j < |r|
      ensures r[i].guid != r[j].guid
    {
      RankingDistinct(cs, w, i, j);
    }
  }

  /** The filter by score holds only elements of `s` with that score. */
  lemma {:induction false} WithScoreOnly(s: seq<Entry>, v: int, x: Entry)
    requires x in WithScore(s, v)
    ensures x in s && x.score == v
  {
    if s != [] && x !in (if s[0].score == v then [s[0]] else []) {
      WithScoreOnly(s[1..], v, x);
    }
  }

  /** Where `s[i]` lands in the filter by its score: after the entries of
      that score before it. */
  lemma {:induction false} WithScoreHasAt(s: seq<Entry>, v: int, i: nat) returns (a: nat)
    requires i < |s| && s[i].score == v
    ensures a < |WithScore(s, v)| && WithScore(s, v)[a] == s[i]
    ensures a == |WithScore(s[..i], v)|
  {
    var ws := WithScore(s, v);
    var rest := WithScore(s[1..], v);
    assert ws == (if s[0].score == v then [s[0]] else []) + rest;
    if i == 0 {
      assert s[..0] == [];
      a := 0;
    } else {
      assert s[1..][i - 1] == s[i];
      var a' := WithScoreHasAt(s[1..], v, i - 1);
      assert s[1..][..i - 1] == s[..i][1..];
      a := if s[0].score == v then a' + 1 else a';
    }
  }

  /** A shorter prefix keeps no more entries of the score. */
  lemma {:induction false} WithScorePrefix(s: seq<Entry>, v: int, i: nat, j: nat)
    requires i < j <= |s| && s[i].score == v
    ensures |WithScore(s[..i], v)| < |WithScore(s[..j], v)|
  {
    assert s[..j] == s[..i] + s[i..j];
    WithScoreAppend(s[..i], s[i..j], v);
    assert s[i..j][0] == s[i];
  }

  /** The filter by score keeps the order of two entries of that score. */
  lemma WithScoreKeepsOrder(s: seq<Entry>, v: int, i: nat, j: nat) returns (a: nat, b: nat)
    requires i < j < |s| && s[i].score == v && s[j].score == v
    ensures a < b < |WithScore(s, v)| && WithScore(s, v)[a] == s[i] && WithScore(s, v)[b] == s[j]
  {
    a := WithScoreHasAt(s, v, i);
    b := WithScoreHasAt(s, v, j);
    WithScorePrefix(s, v, i, j);
  }

  /** `a` and `b` both occur in `gs`, and `a` first occurs before `b` does. */
  predicate AppearsBefore(gs: seq<string>, a: string, b: string) {
    a in gs && b in gs && FirstIndex(gs, a) < FirstIndex(gs, b)
  }

  /** Entries listed in order of their GUIDs' first appearance in `gs`. */
  predicate ByFirstAppearance(es: seq<Entry>, gs: seq<string>) {
    forall i, j :: 0 <= i < j < |es| ==> AppearsBefore(gs, es[i].guid, es[j].guid)
  }

  /** Dropping the head keeps the order of first appearance. */
  lemma ByFirstAppearanceTail(es: seq<Entry>, gs: seq<string>)
    requires es != [] && ByFirstAppearance(es, gs)
    ensures ByFirstAppearance(es[1..], gs)
  {
    var t := es[1..];
    forall i, j | 0 <= i < j < |t|
      ensures AppearsBefore(gs, t[i].guid, t[j].guid)
    {
      assert t[i] == es[i + 1] && t[j] == es[j + 1];
    }
  }

  /** The head of a list in first-appearance order appeared before every
      later entry. */
  lemma HeadAppearsFirst(es: seq<Entry>, gs: seq<string>)
    requires es != [] && ByFirstAppearance(es, gs)
    ensures forall k :: 1 <= k < |es| ==> AppearsBefore(gs, es[0].guid, es[k].guid)
  {
  }

  /** An entry that appeared before all of a list in first-appearance order
      can go in front of it. */
  lemma ConsAppearsFirst(e: Entry, rest: seq<Entry>, gs: seq<string>)
    requires ByFirstAppearance(rest, gs)
    requires forall k :: 0 <= k < |rest| ==> AppearsBefore(gs, e.guid, rest[k].guid)
    ensures ByFirstAppearance([e] + rest, gs)
  {
    var ws := [e] + rest;
    forall i, j | 0 <= i < j < |ws|
      ensures AppearsBefore(gs, ws[i].guid, ws[j].guid)
    {
      assert ws[j] == rest[j - 1];
      if i > 0 {
        assert ws[i] == rest[i - 1];
      }
    }
  }

  lemma {:induction false} WithScoreByFirstAppearance(es: seq<Entry>, gs: seq<string>, v: int)
    requires ByFirstAppearance(es, gs)
    ensures ByFirstAppearance(WithScore(es, v), gs)
  {
    if es != [] {
      var rest := WithScore(es[1..], v);
      ByFirstAppearanceTail(es, gs);
      WithScoreByFirstAppearance(es[1..], gs, v);
      if es[0].score == v {
        HeadAppearsFirst(es, gs);
        forall k | 0 <= k < |rest|
          ensures AppearsBefore(gs, es[0].guid, rest[k].guid)
        {
          assert rest[k] in rest;
          WithScoreOnly(es[1..], v, rest[k]);
          var m :| 0 <= m < |es[1..]| && es[1..][m] == rest[k];
          assert es[m + 1] == rest[k];
        }
        ConsAppearsFirst(es[0], rest, gs);
      }
    }
  }

  /** The unsorted entries come in order of first appearance. */
  lemma EntriesByFirstAppearance(cs: seq<Candidate>, w: Weights)
    ensures ByFirstAppearance(Entries(cs, w), Guids(cs))
  {
    var keys := Distinct(Guids(cs));
    var es := Entries(cs, w);
    forall i, j | 0 <= i < j < |es|
      ensures AppearsBefore(Guids(cs), es[i].guid, es[j].guid)
    {
      DistinctOrder(Guids(cs), i, j);
    }
  }

  /** Ties keep first-appearance order: of two ranked GUIDs with the same
      score, the one seen first among the candidates comes first. */
  lemma RankingStable(cs: seq<Candidate>, w: Weights, i: nat, j: nat)
    requires i < j < |Ranking(cs, w)| && Ranking(cs, w)[i].score == Ranking(cs, w)[j].score
    ensures Ranking(cs, w)[i].guid in Guids(cs) && Ranking(cs, w)[j].guid in Guids(cs)
    ensures FirstIndex(Guids(cs), Ranking(cs, w)[i].guid) < FirstIndex(Guids(cs), Ranking(cs, w)[j].guid)
  {
    var r := Ranking(cs, w);
    var es := Entries(cs, w);
    var v := r[i].score;
    SortDescStable(es, v);
    var a, b := WithScoreKeepsOrder(r, v, i, j);
    EntriesByFirstAppearance(cs, w);
    WithScoreByFirstAppearance(es, Guids(cs), v);
  }

  /** The head of the ranking has the highest score of all GUIDs, and any
      other GUID with that score appeared later. */
  lemma RankingHead(cs: seq<Candidate>, w: Weights, g: string)
    requires g in Guids(cs)
    ensures Ranking(cs, w) != [] && Ranking(cs, w)[0].guid in Guids(cs)
    ensures Score(cs, g, w) <= Ranking(cs, w)[0].score
    ensures Ranking(cs, w)[0].score == Score(cs, Ranking(cs, w)[0].guid, w)
    ensures Score(cs, g, w) == Ranking(cs, w)[0].score ==>
      FirstIndex(Guids(cs), Ranking(cs, w)[0].guid) <= FirstIndex(Guids(cs), g)
  {
    var r := Ranking(cs, w);
    RankingEntries(cs, w);
    var j :| 0 <= j < |r| && r[j].guid == g;
    assert r[0] == EntryFor(cs, r[0].guid, w);
    assert r[j] == EntryFor(cs, g, w);
    if j > 0 && r[j].score == r[0].score {
      RankingStable(cs, w, 0, j);
    }
  }

  /** The GUID at the head of a nonempty ranking is one of the candidates'
      GUIDs, scores at least as high as any other, and appears no later than
      any other of the same score. */
  lemma RankingBest(cs: seq<Candidate>, w: Weights, g: string, h: string)
    requires Ranking(cs, w) != [] && g == Ranking(cs, w)[0].guid
    ensures g in Guids(cs)
    ensures h in Guids(cs) ==> Score(cs, h, w) <= Score(cs, g, w)
    ensures h in Guids(cs) && Score(cs, h, w) == Score(cs, g, w) ==>
      FirstIndex(Guids(cs), g) <= FirstIndex(Guids(cs), h)
  {
    RankingEntries(cs, w);
    assert exists i :: 0 <= i < |Ranking(cs, w)| && Ranking(cs, w)[i].guid == g;
    RankingHead(cs, w, g);
    if h in Guids(cs) {
      RankingHead(cs, w, h);
    }
  }
}
