/** `Mac_GUI/activator.py`: the signature scan over a `tracev3` buffer, the
    RFC 4122 structural check, extraction within 512 bytes of each
    `BLDatabaseManager` signature, the weighted confidence ranking with its
    HIGH/MEDIUM/LOW tiers and confirmation gate, and the `BypassAutomation`
    object whose attempt counter, device information and transport mode the
    retry loop and the upload step update. */
module MacGui {
  import opened Wrappers
  import opened Bytes
  import opened Search
  import opened Text
  import opened GuidShape
  import opened Scoring
  import opened Extraction
  import opened DeviceSession
  import opened RetryLoop
  import Transport

  /** The database-related strings the structure scan looks for, in order. */
  const DB_PATTERNS: seq<seq<byte>> := [
    BL_DATABASE_MANAGER,
    Literal("BLDatabase"),
    Literal("BLDatabaseManager.sqlite"),
    Literal("bookassetd [Database]: Store is at file:///private/var/containers/Shared/SystemGroup")
  ]

  /** `window_size` of `extract_guid_candidates`. */
  const WINDOW: nat := 512

  /** `10 * count`, `+ 5` per occurrence within 100 bytes, `+ 3` per
      occurrence before the anchor. */
  const WEIGHTS: Weights := Weights(10, 100, 5, 3)

  const HIGH_SCORE: int := 30
  const MEDIUM_SCORE: int := 15
  const MAX_ATTEMPTS: nat := 10

  /** One `('string', pattern, pos)` entry of the signature list. */
  datatype Signature = Signature(pattern: seq<byte>, pos: nat)

  predicate NonEmptyPatterns(pats: seq<seq<byte>>) {
    forall k :: 0 <= k < |pats| ==> |pats[k]| > 0
  }

  predicate DistinctPatterns(pats: seq<seq<byte>>) {
    forall i, j :: 0 <= i < j < |pats| ==> pats[i] != pats[j]
  }

  function Tag(pattern: seq<byte>, ps: seq<nat>): (sigs: seq<Signature>)
    ensures |sigs| == |ps| && forall i :: 0 <= i < |ps| ==> sigs[i] == Signature(pattern, ps[i])
  {
    seq(|ps|, i requires 0 <= i < |ps| => Signature(pattern, ps[i]))
  }

  /** The signatures of the patterns `pats`, pattern by pattern, each
      pattern's positions in scan order. */
  function Signatures(data: seq<byte>, pats: seq<seq<byte>>): seq<Signature>
    requires NonEmptyPatterns(pats)
  {
    if pats == [] then []
    else
      var last := pats[|pats| - 1];
      Signatures(data, pats[..|pats| - 1]) + Tag(last, NonOverlapping(data, last, 0))
  }

  /** The positions of the signatures of one pattern, in list order. */
  function PositionsOf(sigs: seq<Signature>, pattern: seq<byte>): seq<nat> {
    if sigs == [] then []
    else
      var s := sigs[|sigs| - 1];
      PositionsOf(sigs[..|sigs| - 1], pattern) + (if s.pattern == pattern then [s.pos] else [])
  }

  /** `parse_tracev3_structure`: for each pattern, `data.find` from the
      current position, record the hit and resume after it. */
  method ParseTracev3Structure(data: seq<byte>) returns (sigs: seq<Signature>)
    ensures sigs == Signatures(data, DB_PATTERNS)
  {
    PatternsWellFormed();
    sigs := ScanPatterns(data, DB_PATTERNS);
  }

  /** The scan loop of `parse_tracev3_structure` over a list of patterns. */
  method ScanPatterns(data: seq<byte>, pats: seq<seq<byte>>) returns (sigs: seq<Signature>)
    requires NonEmptyPatterns(pats)
    ensures sigs == Signatures(data, pats)
  {
    sigs := [];
    for j := 0 to |pats|
      invariant sigs == Signatures(data, pats[..j])
    {
      assert pats[..j + 1][..j] == pats[..j] && pats[..j + 1][j] == pats[j];
      var found := ScanPattern(data, pats[j]);
      sigs := sigs + found;
    }
    assert pats[..|pats|] == pats;
  }

  /** The inner loop for one pattern: `pos = data.find(pattern, pos)`, record
      the hit, `pos += len(pattern)`, until no hit is left. */
  method ScanPattern(data: seq<byte>, pattern: seq<byte>) returns (sigs: seq<Signature>)
    requires |pattern| > 0
    ensures sigs == Tag(pattern, NonOverlapping(data, pattern, 0))
  {
    var found := ScanPositions(data, pattern);
    sigs := Tag(pattern, found);
  }

  /** The positions the inner loop records, in order. */
  method ScanPositions<T(==)>(data: seq<T>, pattern: seq<T>) returns (found: seq<nat>)
    requires |pattern| > 0
    ensures found == NonOverlapping(data, pattern, 0)
  {
    found := [];
    var pos: nat := 0;
    ghost var rest := NonOverlapping(data, pattern, 0);
    while true
      invariant rest == NonOverlapping(data, pattern, pos)
      invariant NonOverlapping(data, pattern, 0) == found + rest
      decreases |rest|
    {
      var p := Find(data, pattern, pos);
      if p == -1 {
        NonOverlappingEnd(data, pattern, pos);
        assert found + [] == found;
        break;
      }
      NonOverlappingNext(data, pattern, pos, p);
      ghost var next := NonOverlapping(data, pattern, p + |pattern|);
      Reassociate(found, p, next);
      found := found + [p];
      rest := next;
      pos := p + |pattern|;
    }
  }

  lemma {:induction false} PositionsOfAppend(a: seq<Signature>, b: seq<Signature>, pattern: seq<byte>)
    ensures PositionsOf(a + b, pattern) == PositionsOf(a, pattern) + PositionsOf(b, pattern)
    decreases |b|
  {
    if b != [] {
      var init := b[..|b| - 1];
      assert (a + b)[..|a + b| - 1] == a + init;
      assert (a + b)[|a + b| - 1] == b[|b| - 1];
      PositionsOfAppend(a, init, pattern);
    } else {
      assert a + b == a;
    }
  }

  lemma {:induction false} PositionsOfTag(q: seq<byte>, ps: seq<nat>, pattern: seq<byte>)
    ensures PositionsOf(Tag(q, ps), pattern) == if q == pattern then ps else []
    decreases |ps|
  {
    if ps != [] {
      var init := ps[..|ps| - 1];
      assert Tag(q, ps)[..|ps| - 1] == Tag(q, init);
      PositionsOfTag(q, init, pattern);
    }
  }

  /** The signatures of `pats` followed by those of one more pattern. */
  lemma SignaturesSnoc(data: seq<byte>, pats: seq<seq<byte>>, last: seq<byte>, pattern: seq<byte>)
    requires NonEmptyPatterns(pats) && |last| > 0
    ensures NonEmptyPatterns(pats + [last])
    ensures PositionsOf(Signatures(data, pats + [last]), pattern)
      == PositionsOf(Signatures(data, pats), pattern)
         + (if last == pattern then NonOverlapping(data, last, 0) else [])
  {
    SignaturesLast(data, pats, last);
    PositionsOfAppend(Signatures(data, pats), Tag(last, NonOverlapping(data, last, 0)), pattern);
    PositionsOfTag(last, NonOverlapping(data, last, 0), pattern);
  }

  /** One more pattern appends its tagged occurrences. */
  lemma SignaturesLast(data: seq<byte>, pats: seq<seq<byte>>, last: seq<byte>)
    requires NonEmptyPatterns(pats) && |last| > 0
    ensures NonEmptyPatterns(pats + [last])
    ensures Signatures(data, pats + [last]) == Signatures(data, pats) + Tag(last, NonOverlapping(data, last, 0))
  {
    assert (pats + [last])[..|pats|] == pats;
  }

  /** No signature carries a pattern that is not in the list. */
  lemma {:induction false} SignaturesAbsent(data: seq<byte>, pats: seq<seq<byte>>, pattern: seq<byte>)
    requires NonEmptyPatterns(pats) && pattern !in pats
    ensures PositionsOf(Signatures(data, pats), pattern) == []
  {
    if pats != [] {
      var init := pats[..|pats| - 1];
      assert pats == init + [pats[|pats| - 1]];
      SignaturesAbsent(data, init, pattern);
      SignaturesSnoc(data, init, pats[|pats| - 1], pattern);
    }
  }

  /** With distinct patterns, the positions recorded for a pattern of the
      list are exactly those of its non-overlapping scan. */
  lemma {:induction false} SignaturesPositions(data: seq<byte>, pats: seq<seq<byte>>, k: nat)
    requires NonEmptyPatterns(pats) && DistinctPatterns(pats) && k < |pats|
    ensures PositionsOf(Signatures(data, pats), pats[k]) == NonOverlapping(data, pats[k], 0)
  {
    var init := pats[..|pats| - 1];
    var last := pats[|pats| - 1];
    assert pats == init + [last];
    SignaturesSnoc(data, init, last, pats[k]);
    if k == |pats| - 1 {
      SignaturesAbsent(data, init, last);
    } else {
      assert init[k] == pats[k] && last != pats[k];
      SignaturesPositions(data, init, k);
    }
  }

  lemma PatternsWellFormed()
    ensures NonEmptyPatterns(DB_PATTERNS) && DistinctPatterns(DB_PATTERNS)
  {
    assert |DB_PATTERNS[0]| == 17 && |DB_PATTERNS[1]| == 10;
    assert |DB_PATTERNS[2]| == 24 && |DB_PATTERNS[3]| == 84;
  }

  /** For each pattern, the structure scan records exactly the positions of
      a left-to-right non-overlapping scan: occurrences of the pattern, each
      at least the pattern's length past the one before. */
  lemma StructurePositions(data: seq<byte>, k: nat)
    requires k < |DB_PATTERNS|
    ensures PositionsOf(Signatures(data, DB_PATTERNS), DB_PATTERNS[k])
      == NonOverlapping(data, DB_PATTERNS[k], 0)
    ensures var ps := PositionsOf(Signatures(data, DB_PATTERNS), DB_PATTERNS[k]);
      (forall i :: 0 <= i < |ps| ==> OccursAt(data, DB_PATTERNS[k], ps[i]))
      && (forall i :: 0 < i < |ps| ==> ps[i - 1] + |DB_PATTERNS[k]| <= ps[i])
  {
    PatternsWellFormed();
    SignaturesPositions(data, DB_PATTERNS, k);
    NonOverlappingSound(data, DB_PATTERNS[k], 0);
  }

  /** Every character of `s` is in `0123456789ABCDEF`. */
  predicate AllUpperHex(s: string) {
    forall i :: 0 <= i < |s| ==> IsUpperHexChar(s[i])
  }

  /** `validate_guid_structure`, step by step: five dash-separated groups of
      lengths 8, 4, 4, 4 and 12, upper-case hex digits once the dashes are
      removed, version nibble `4`, variant nibble one of `89AB`. */
  function ValidateGuidStructure(guid: string): bool {
    var parts := Split(guid, '-');
    if |parts| != 5 then false
    else if |parts[0]| != 8 || |parts[1]| != 4 || |parts[2]| != 4 || |parts[3]| != 4 || |parts[4]| != 12 then false
    else if !AllUpperHex(RemoveChar(guid, '-')) then false
    else if parts[2][0] != '4' then false
    else parts[3][0] in "89AB"
  }

  /** The check accepts exactly the upper-case GUIDs of version 4 whose
      variant nibble is `8`, `9`, `A` or `B`. */
  lemma ValidateGuidStructureIff(s: string)
    ensures ValidateGuidStructure(s) <==> IsUpperGuid(s) && s[14] == '4' && s[19] in "89AB"
  {
    if ValidateGuidStructure(s) {
      ValidatedIsUpperGuid(s);
    }
    if IsUpperGuid(s) && s[14] == '4' && s[19] in "89AB" {
      UpperGuidValidates(s);
    }
  }

  lemma ValidatedIsUpperGuid(s: string)
    requires ValidateGuidStructure(s)
    ensures IsUpperGuid(s) && s[14] == '4' && s[19] in "89AB"
  {
    FiveGroups(s);
    GroupsLengths(s);
    DashlessHex(s);
  }

  /** Once the dashes are removed only hex digits are left exactly when
      every character that is not a dash is one. */
  lemma {:induction false} DashlessHex(s: string)
    ensures AllUpperHex(RemoveChar(s, '-')) <==> forall i :: 0 <= i < |s| && s[i] != '-' ==> IsUpperHexChar(s[i])
    decreases |s|
  {
    if s != [] {
      var rest := s[1..];
      DashlessHex(rest);
      var head: string := if s[0] == '-' then [] else [s[0]];
      var t := RemoveChar(rest, '-');
      assert RemoveChar(s, '-') == head + t;
      if AllUpperHex(head + t) {
        forall i | 0 <= i < |s| && s[i] != '-'
          ensures IsUpperHexChar(s[i])
        {
          if i == 0 {
            assert (head + t)[0] == s[0];
          } else {
            assert AllUpperHex(t) by {
              forall j | 0 <= j < |t| ensures IsUpperHexChar(t[j]) {
                assert (head + t)[|head| + j] == t[j];
              }
            }
            assert s[i] == rest[i - 1];
          }
        }
      }
      if forall i :: 0 <= i < |s| && s[i] != '-' ==> IsUpperHexChar(s[i]) {
        forall i | 0 <= i < |rest| && rest[i] != '-'
          ensures IsUpperHexChar(rest[i])
        {
          assert rest[i] == s[i + 1];
        }
        forall j | 0 <= j < |head + t|
          ensures IsUpperHexChar((head + t)[j])
        {
          if j >= |head| {
            assert (head + t)[j] == t[j - |head|];
          }
        }
      }
    }
  }

  lemma UpperGuidValidates(s: string)
    requires IsUpperGuid(s) && s[14] == '4' && s[19] in "89AB"
    ensures ValidateGuidStructure(s)
  {
    DashlessHex(s);
    SplitShaped(s);
    GroupsLengths(s);
  }


  /** `extract_guid_candidates(data, p)`: the matches of the GUID pattern in
      the window `[max(0, p - 512), min(len(data), p + 512))`, upper-cased,
      with their offset from `p`, kept when the structural check passes. */
  method ExtractGuidCandidates(data: seq<byte>, p: nat) returns (cs: seq<Candidate>)
    ensures cs == AnchorCandidates(data, p, WINDOW, WINDOW, ValidateGuidStructure)
  {
    cs := ExtractAround(data, p, WINDOW, WINDOW, ValidateGuidStructure);
  }

  /** Each candidate around `p` is an upper-case GUID that passes the
      structural check, whose 36 bytes lie in the window around `p`, placed at
      its offset from `p`, which is between -512 and 512 - 36. */
  lemma ExtractedNearAnchor(data: seq<byte>, p: nat)
    ensures forall i :: 0 <= i < |AnchorCandidates(data, p, WINDOW, WINDOW, ValidateGuidStructure)| ==>
      var c := AnchorCandidates(data, p, WINDOW, WINDOW, ValidateGuidStructure)[i];
      NearAnchor(data, p, WINDOW, WINDOW, ValidateGuidStructure, c)
      && -(WINDOW as int) <= c.position <= WINDOW - GUID_LEN
  {
    AnchorCandidatesSound(data, p, WINDOW, WINDOW, ValidateGuidStructure);
  }

  /** The candidates of the whole buffer: those near every
      `BLDatabaseManager` signature, in signature order. */
  function GuidCandidates(data: seq<byte>): seq<Candidate> {
    PatternsWellFormed();
    BlCandidates(data, Signatures(data, DB_PATTERNS))
  }

  /** The candidate loop of `get_guid_enhanced`: extract around each
      signature whose pattern is `BLDatabaseManager`. */
  method CollectCandidates(data: seq<byte>, sigs: seq<Signature>) returns (all: seq<Candidate>)
    ensures all == BlCandidates(data, sigs)
  {
    all := [];
    for k := 0 to |sigs|
      invariant all == BlCandidates(data, sigs[..k])
    {
      BlCandidatesSnoc(data, sigs[..k], sigs[k]);
      assert sigs[..k + 1] == sigs[..k] + [sigs[k]];
      if sigs[k].pattern == BL_DATABASE_MANAGER {
        var cs := ExtractGuidCandidates(data, sigs[k].pos);
        all := all + cs;
      }
    }
    assert sigs[..|sigs|] == sigs;
  }

  /** The candidates around the `BLDatabaseManager` signatures of `sigs`. */
  function BlCandidates(data: seq<byte>, sigs: seq<Signature>): seq<Candidate> {
    AllCandidates(data, PositionsOf(sigs, BL_DATABASE_MANAGER), WINDOW, WINDOW, ValidateGuidStructure)
  }

  lemma BlCandidatesSnoc(data: seq<byte>, sigs: seq<Signature>, s: Signature)
    ensures BlCandidates(data, sigs + [s]) == BlCandidates(data, sigs)
      + if s.pattern == BL_DATABASE_MANAGER
        then AnchorCandidates(data, s.pos, WINDOW, WINDOW, ValidateGuidStructure) else []
  {
    var pre := PositionsOf(sigs, BL_DATABASE_MANAGER);
    assert (sigs + [s])[..|sigs|] == sigs;
    if s.pattern == BL_DATABASE_MANAGER {
      assert PositionsOf(sigs + [s], BL_DATABASE_MANAGER) == pre + [s.pos];
      AllCandidatesSnoc(data, pre, s.pos, WINDOW, WINDOW, ValidateGuidStructure);
    } else {
      assert PositionsOf(sigs + [s], BL_DATABASE_MANAGER) == pre;
    }
  }

  /** The candidates of the buffer are those around the non-overlapping
      occurrences of `BLDatabaseManager`. */
  lemma GuidCandidatesAround(data: seq<byte>)
    ensures GuidCandidates(data)
      == AllCandidates(data, NonOverlapping(data, BL_DATABASE_MANAGER, 0), WINDOW, WINDOW, ValidateGuidStructure)
  {
    PatternsWellFormed();
    StructurePositions(data, 0);
  }

  /** Every candidate of the buffer is an upper-case, structurally valid
      GUID whose 36 bytes lie within 512 bytes of a `BLDatabaseManager`
      occurrence, placed at its offset from that occurrence. */
  lemma GuidCandidatesSound(data: seq<byte>)
    ensures forall i :: 0 <= i < |GuidCandidates(data)| ==>
      exists a :: 0 <= a < |NonOverlapping(data, BL_DATABASE_MANAGER, 0)|
        && NearAnchor(data, NonOverlapping(data, BL_DATABASE_MANAGER, 0)[a], WINDOW, WINDOW,
                      ValidateGuidStructure, GuidCandidates(data)[i])
  {
    GuidCandidatesAround(data);
    AllCandidatesSound(data, NonOverlapping(data, BL_DATABASE_MANAGER, 0), WINDOW, WINDOW, ValidateGuidStructure);
  }

  /** `analyze_guid_confidence`: `None` for no candidates; otherwise one
      `(guid, score, count)` row per distinct GUID in first-appearance order,
      then sorted by score, highest first. */
  method AnalyzeGuidConfidence(cs: seq<Candidate>) returns (r: Option<seq<Entry>>)
    ensures r.None? <==> cs == []
    ensures r.Some? ==> r.value == Ranking(cs, WEIGHTS)
  {
    if cs == [] {
      return None;
    }
    var keys := Distinct(Guids(cs));
    var scored: seq<Entry> := [];
    for k := 0 to |keys|
      invariant scored == EntriesOf(cs, keys[..k], WEIGHTS)
    {
      var guid := keys[k];
      var count := Count(Guids(cs), guid);
      var score := count * WEIGHTS.perOccurrence;
      var close := CountClose(cs, guid, WEIGHTS.closeLimit);
      if close > 0 {
        score := score + close * WEIGHTS.closeBonus;
      }
      var before := CountBefore(cs, guid);
      if before > 0 {
        score := score + before * WEIGHTS.beforeBonus;
      }
      scored := scored + [Entry(guid, score, count)];
    }
    assert keys[..|keys|] == keys;
    return Some(SortDesc(scored));
  }

  datatype Confidence = High | Medium | Low

  /** The confidence tier of the best score. */
  function Tier(score: int): Confidence {
    if score >= HIGH_SCORE then High else if score >= MEDIUM_SCORE then Medium else Low
  }

  /** `confirm_guid_manual`: approved in auto mode, otherwise when the
      stripped, lower-cased reply is `y` or `yes`. */
  function ConfirmGuidManual(auto: bool, reply: string): bool {
    auto || Lower(Strip(reply)) == "y" || Lower(Strip(reply)) == "yes"
  }

  /** `y` or `yes` in any mix of cases. */
  predicate IsYes(t: string) {
    (|t| == 1 && t[0] in "yY") || (|t| == 3 && t[0] in "yY" && t[1] in "eE" && t[2] in "sS")
  }

  /** Outside auto mode, the replies that confirm are exactly `y` and `yes`
      in any case, with any surrounding white space. */
  lemma ConfirmReplies(auto: bool, reply: string)
    ensures ConfirmGuidManual(auto, reply) <==> auto || IsYes(Strip(reply))
  {
    var t := Strip(reply);
    var l := Lower(t);
    if |t| == 1 {
      assert l == "y" <==> l[0] == 'y';
      assert l[0] == LowerChar(t[0]);
    }
    if |t| == 3 {
      assert l == "yes" <==> l[0] == 'y' && l[1] == 'e' && l[2] == 's';
      assert l[0] == LowerChar(t[0]) && l[1] == LowerChar(t[1]) && l[2] == LowerChar(t[2]);
    }
  }

  /** What one attempt's environment gives back: the exit code of
      `pymobiledevice3 syslog collect`, whether the archive holds
      `logdata.LiveData.tracev3`, that file's bytes, and the reply typed at
      the confirmation prompt. */
  datatype AttemptInput = AttemptInput(collectCode: int, traceFound: bool, data: seq<byte>, reply: string)

  /** The result of `get_guid_enhanced` with device information `info`: an
      error when the identifier is missing; no GUID when collection fails,
      the trace is missing, nothing is extracted, or a MEDIUM or LOW best
      GUID is not confirmed; otherwise the best-ranked GUID. */
  function EnhancedOutcome(info: map<string, string>, a: AttemptInput, auto: bool): Result<Option<string>, string> {
    if UDID_KEY !in info then Err(MISSING_UDID)
    else if a.collectCode != 0 || !a.traceFound then Ok(None)
    else
      var cs := GuidCandidates(a.data);
      if cs == [] then Ok(None)
      else
        var ranked := Ranking(cs, WEIGHTS);
        if ranked == [] then Ok(None)
        else if Tier(ranked[0].score) != High && !ConfirmGuidManual(auto, a.reply) then Ok(None)
        else Ok(Some(ranked[0].guid))
  }

  /** An attempt that returns a GUID had the device identifier, collected the
      trace, and returns the head of the ranking of the trace's candidates. */
  lemma EnhancedPicksHead(info: map<string, string>, a: AttemptInput, auto: bool, g: string)
    requires EnhancedOutcome(info, a, auto) == Ok(Some(g))
    ensures UDID_KEY in info && a.collectCode == 0 && a.traceFound
    ensures Ranking(GuidCandidates(a.data), WEIGHTS) != []
    ensures g == Ranking(GuidCandidates(a.data), WEIGHTS)[0].guid
  {
  }

  /** Every candidate GUID of a trace is upper-case and structurally valid. */
  lemma CandidateGuidValid(data: seq<byte>, g: string)
    requires g in Guids(GuidCandidates(data))
    ensures IsUpperGuid(g) && ValidateGuidStructure(g)
  {
    var cs := GuidCandidates(data);
    var i :| 0 <= i < |cs| && Guids(cs)[i] == g;
    GuidCandidatesAround(data);
    AllCandidatesAccepted(data, NonOverlapping(data, BL_DATABASE_MANAGER, 0), WINDOW, WINDOW, ValidateGuidStructure, i);
  }

  /** A GUID returned by an attempt is an upper-case, structurally valid GUID
      found near a `BLDatabaseManager` signature of the trace, and it scores
      at least as high as every other candidate, appearing no later than any
      other of the same score. */
  lemma EnhancedFound(info: map<string, string>, a: AttemptInput, auto: bool, g: string, h: string)
    requires EnhancedOutcome(info, a, auto) == Ok(Some(g))
    ensures UDID_KEY in info && a.collectCode == 0 && a.traceFound
    ensures g in Guids(GuidCandidates(a.data)) && IsUpperGuid(g) && ValidateGuidStructure(g)
    ensures h in Guids(GuidCandidates(a.data)) ==>
      Score(GuidCandidates(a.data), h, WEIGHTS) <= Score(GuidCandidates(a.data), g, WEIGHTS)
    ensures (h in Guids(GuidCandidates(a.data))
             && Score(GuidCandidates(a.data), h, WEIGHTS) == Score(GuidCandidates(a.data), g, WEIGHTS)) ==>
      FirstIndex(Guids(GuidCandidates(a.data)), g) <= FirstIndex(Guids(GuidCandidates(a.data)), h)
  {
    EnhancedPicksHead(info, a, auto, g);
    RankingBest(GuidCandidates(a.data), WEIGHTS, g, h);
    CandidateGuidValid(a.data, g);
  }

  /** The tier gate: a best score of 30 or more is returned without
      confirmation; a lower one only when confirmed, which auto mode always
      is; an unconfirmed one gives no GUID. */
  lemma EnhancedGate(info: map<string, string>, a: AttemptInput, auto: bool)
    requires UDID_KEY in info && a.collectCode == 0 && a.traceFound && GuidCandidates(a.data) != []
    ensures Ranking(GuidCandidates(a.data), WEIGHTS) != []
    ensures var best := Ranking(GuidCandidates(a.data), WEIGHTS)[0];
      (best.score >= HIGH_SCORE ==> EnhancedOutcome(info, a, auto) == Ok(Some(best.guid)))
      && (best.score < HIGH_SCORE ==>
            (EnhancedOutcome(info, a, auto) == Ok(Some(best.guid)) <==> ConfirmGuidManual(auto, a.reply))
            && (!ConfirmGuidManual(auto, a.reply) ==> EnhancedOutcome(info, a, auto) == Ok(None)))
      && (auto ==> EnhancedOutcome(info, a, auto) == Ok(Some(best.guid)))
  {
    var cs := GuidCandidates(a.data);
    assert Guids(cs)[0] in Guids(cs);
    RankingHead(cs, WEIGHTS, Guids(cs)[0]);
  }

  const NO_DEVICE: string := "No device detected"

  /** What a failed re-detection raises. */
  function NoDevice(c: CommandResult): string {
    NO_DEVICE
  }

  /** The attempts of `get_guid_enhanced`, with `attempt(n)` what attempt `n`
      sees. */
  function Enhanced(auto: bool, attempt: nat -> AttemptInput): Outcomes {
    (info: map<string, string>, n: nat) => EnhancedOutcome(info, attempt(n), auto)
  }

  /** `BypassAutomation`: the transport mode, the parsed device information,
      the chosen GUID and the attempt counter that the steps update. */
  class BypassAutomation {
    var afcMode: Transport.AfcMode
    var deviceInfo: map<string, string>
    var guid: Option<string>
    var attemptCount: nat
    const maxAttempts: nat
    const autoConfirmGuid: bool
    /** The attempts, reboots and re-detections so far. */
    ghost var events: seq<Event>

    constructor (autoConfirm: bool)
      ensures afcMode == Transport.Unset && deviceInfo == map[] && guid == None && attemptCount == 0
      ensures maxAttempts == MAX_ATTEMPTS && autoConfirmGuid == autoConfirm && events == []
    {
      afcMode := Transport.Unset;
      deviceInfo := map[];
      guid := None;
      attemptCount := 0;
      maxAttempts := MAX_ATTEMPTS;
      autoConfirmGuid := autoConfirm;
      events := [];
    }

    /** `verify_dependencies`: both `ideviceinfo` and `idevice_id` must be
        found, in that order; the mode is `ifuse` when that binary is found. */
    method VerifyDependencies(hasIdeviceinfo: bool, hasIdeviceId: bool, hasIfuse: bool)
      returns (r: Result<(), string>)
      modifies this`afcMode
      ensures !hasIdeviceinfo ==> r == Err("Required binary not found: ideviceinfo") && afcMode == old(afcMode)
      ensures hasIdeviceinfo && !hasIdeviceId ==>
        r == Err("Required binary not found: idevice_id") && afcMode == old(afcMode)
      ensures hasIdeviceinfo && hasIdeviceId ==> r == Ok(()) && afcMode == Transport.ModeFor(hasIfuse)
    {
      if !hasIdeviceinfo {
        return Err("Required binary not found: ideviceinfo");
      }
      if !hasIdeviceId {
        return Err("Required binary not found: idevice_id");
      }
      afcMode := Transport.ModeFor(hasIfuse);
      return Ok(());
    }

    /** `detect_device`: a failing `ideviceinfo` is an error and leaves the
        device information as it was; otherwise its parsed output replaces
        it. */
    method DetectDevice(c: CommandResult) returns (r: Result<(), string>)
      modifies this`deviceInfo, this`events
      ensures events == old(events) + [Detected]
      ensures c.code != 0 ==> r == Err(NO_DEVICE) && deviceInfo == old(deviceInfo)
      ensures c.code == 0 ==> r == Ok(()) && deviceInfo == InfoOf(SplitLines(c.out))
    {
      events := events + [Detected];
      var info := DetectInfo(c, false, NO_DEVICE);
      if info.Err? {
        return Err(info.error);
      }
      deviceInfo := info.value;
      return Ok(());
    }

    /** `get_guid_enhanced`: count the attempt, then collect, parse, extract,
        rank and gate. */
    method GetGuidEnhanced(a: AttemptInput) returns (r: Result<Option<string>, string>)
      modifies this`attemptCount, this`events
      ensures attemptCount == old(attemptCount) + 1
      ensures events == old(events) + [Attempted(attemptCount)]
      ensures r == EnhancedOutcome(deviceInfo, a, autoConfirmGuid)
    {
      attemptCount := attemptCount + 1;
      events := events + [Attempted(attemptCount)];
      if UDID_KEY !in deviceInfo {
        return Err(MISSING_UDID);
      }
      if a.collectCode != 0 || !a.traceFound {
        return Ok(None);
      }
      var sigs := ParseTracev3Structure(a.data);
      var cs := CollectCandidates(a.data, sigs);
      if cs == [] {
        return Ok(None);
      }
      var scored := AnalyzeGuidConfidence(cs);
      if scored.None? || scored.value == [] {
        return Ok(None);
      }
      var best := scored.value[0];
      if Tier(best.score) != High && !ConfirmGuidManual(autoConfirmGuid, a.reply) {
        return Ok(None);
      }
      return Ok(Some(best.guid));
    }

    /** `reboot_device`: the restart commands, then the poll for the device.
        The retry loop only logs the result, so the reboot is recorded and
        its result dropped. */
    method RebootDevice(rb: RebootInput) returns (ok: bool)
      modifies this`events
      ensures events == old(events) + [Rebooted]
      ensures ok <==> Reconnects(rb.restartCode, rb.diagnosticsCode, rb.pollCode)
    {
      var polls;
      ok, polls := DeviceSession.RebootDevice(rb.restartCode, rb.diagnosticsCode, rb.pollCode);
      events := events + [Rebooted];
    }

    /** One pass of the retry loop: an attempt and, when it found nothing
        and was not the last, a reboot and a re-detection. `stop` says that
        the loop ends here with `g`; `t` is what the pass records. */
    method RetryPass(attempt: nat -> AttemptInput, reboot: nat -> RebootInput, detect: nat -> CommandResult)
      returns (g: Result<Option<string>, string>, stop: bool, ghost t: seq<Event>)
      requires attemptCount < maxAttempts
      modifies this`attemptCount, this`deviceInfo, this`events
      ensures events == old(events) + t
      ensures stop ==>
        Retry(old(deviceInfo), old(attemptCount), maxAttempts, Enhanced(autoConfirmGuid, attempt), NoDevice, detect)
        == After(t, RetryRun(g, deviceInfo, attemptCount, []))
      ensures !stop ==> (
        attemptCount == old(attemptCount) + 1 && attemptCount <= maxAttempts
        && Retry(old(deviceInfo), old(attemptCount), maxAttempts, Enhanced(autoConfirmGuid, attempt), NoDevice, detect)
           == After(t, Retry(deviceInfo, attemptCount, maxAttempts, Enhanced(autoConfirmGuid, attempt), NoDevice, detect)))
    {
      ghost var k := attemptCount;
      ghost var info := deviceInfo;
      ghost var e0 := events;
      ghost var outcome := Enhanced(autoConfirmGuid, attempt);
      g := GetGuidEnhanced(attempt(attemptCount + 1));
      assert g == outcome(info, k + 1);
      t := [Attempted(k + 1)];
      assert events == e0 + t;
      if g.Err? || g.value.Some? {
        RetryStops(info, k, maxAttempts, outcome, NoDevice, detect);
        return g, true, t;
      }
      if attemptCount < maxAttempts {
        RetryRedetects(info, k, maxAttempts, outcome, NoDevice, detect);
        var _ := RebootDevice(reboot(attemptCount));
        ghost var e1 := events;
        var d := DetectDevice(detect(attemptCount));
        assert events == e1 + [Detected];
        t := [Attempted(k + 1), Rebooted, Detected];
        AppendEvents(e0, Attempted(k + 1), Rebooted, Detected);
        assert events == e0 + t;
        if d.Err? {
          return Err(d.error), true, t;
        }
        stop := false;
      } else {
        RetryExhausted(info, k, maxAttempts, outcome, NoDevice, detect);
        stop := true;
      }
    }

    /** `get_guid_auto_with_retry`: reset the counter, attempt until a GUID
        is found or the attempts are used up, rebooting and re-detecting
        between attempts. A reboot's own result is only logged. */
    method GetGuidAutoWithRetry(attempt: nat -> AttemptInput, reboot: nat -> RebootInput,
                                detect: nat -> CommandResult)
      returns (r: Result<Option<string>, string>)
      modifies this`attemptCount, this`deviceInfo, this`events
      ensures var run := Retry(old(deviceInfo), 0, maxAttempts, Enhanced(autoConfirmGuid, attempt), NoDevice, detect);
        r == run.result && deviceInfo == run.info && attemptCount == run.attempts
        && events == old(events) + run.trace
    {
      ghost var start := Retry(deviceInfo, 0, maxAttempts, Enhanced(autoConfirmGuid, attempt), NoDevice, detect);
      ghost var acc: seq<Event> := [];
      attemptCount := 0;
      assert start == After(acc, start);
      while attemptCount < maxAttempts
        invariant attemptCount <= maxAttempts
        invariant events == old(events) + acc
        invariant start == After(acc, Retry(deviceInfo, attemptCount, maxAttempts, Enhanced(autoConfirmGuid, attempt), NoDevice, detect))
        decreases maxAttempts - attemptCount
      {
        ghost var before := events;
        var g, stop, t := RetryPass(attempt, reboot, detect);
        AppendAssoc(old(events), acc, t);
        if stop {
          AfterAfter(acc, t, RetryRun(g, deviceInfo, attemptCount, []));
          return g;
        }
        AfterAfter(acc, t, Retry(deviceInfo, attemptCount, maxAttempts, Enhanced(autoConfirmGuid, attempt), NoDevice, detect));
        acc := acc + t;
      }
      return Ok(None);
    }

    /** The GUID choice of `run`: option `1` runs the retry loop and falls
        back to manual entry when it finds nothing; any other choice goes to
        manual entry directly. `replies` are the lines typed at the manual
        prompt; running out of them ends the program. */
    method SelectGuid(choice: string, attempt: nat -> AttemptInput, reboot: nat -> RebootInput,
                      detect: nat -> CommandResult, replies: seq<string>)
      returns (r: Result<string, string>)
      modifies this`guid, this`attemptCount, this`deviceInfo, this`events
      ensures var run := Retry(old(deviceInfo), 0, maxAttempts, Enhanced(autoConfirmGuid, attempt), NoDevice, detect);
        var auto := Strip(choice) == "1";
        var manual := if ManualEntry(replies, ManualGuid).Some? then Ok(ManualEntry(replies, ManualGuid).value) else Err(NO_GUID);
        (auto ==> deviceInfo == run.info && attemptCount == run.attempts && events == old(events) + run.trace)
        && (!auto ==> deviceInfo == old(deviceInfo) && attemptCount == old(attemptCount) && events == old(events))
        && (auto && run.result.Err? ==> r == Err(run.result.error))
        && (auto && run.result.Ok? && run.result.value.Some? ==> r == Ok(run.result.value.value))
        && (!auto || run.result == Ok(None) ==> r == manual)
        && guid == (if r.Ok? then Some(r.value) else if auto && run.result.Ok? then None else old(guid))
    {
      if Strip(choice) == "1" {
        var g := GetGuidAutoWithRetry(attempt, reboot, detect);
        if g.Err? {
          return Err(g.error);
        }
        guid := g.value;
        if guid.Some? {
          return Ok(guid.value);
        }
      }
      var entered, _ := GetGuidManual(replies, ManualGuid);
      if entered.None? {
        return Err(NO_GUID);
      }
      guid := entered;
      return Ok(entered.value);
    }

    /** The upload step of `run` on the object's transport mode, which a
        failed `ifuse` mount switches to `pymobiledevice3` for good. */
    method UploadPayload(mountListed: bool, ifuseCode: nat -> int, targetExists: bool, copyOk: bool,
                         pushCode: int)
      returns (r: Result<(), string>, ops: seq<Transport.DeviceOp>)
      modifies this`afcMode
      ensures afcMode == old(afcMode) || (old(afcMode) == Transport.Ifuse && afcMode == Transport.Pymobiledevice3)
      ensures afcMode == Transport.Ifuse <==>
        old(afcMode) == Transport.Ifuse
        && (mountListed || exists i :: 0 <= i < Transport.MOUNT_TRIES && ifuseCode(i) == 0)
      ensures afcMode == Transport.Ifuse ==>
        ops == (if targetExists then [Transport.MountedRemove(Transport.TARGET)] else [])
          + (if copyOk then [Transport.MountedCopy(Transport.TARGET)] else [])
        && (r.Ok? <==> copyOk)
      ensures afcMode != Transport.Ifuse ==>
        ops == [Transport.AfcRemove(Transport.TARGET), Transport.AfcPush(Transport.TARGET)]
        && (r.Ok? <==> pushCode == 0)
    {
      var mode;
      mode, r, ops := Transport.Upload(afcMode, mountListed, ifuseCode, targetExists, copyOk, pushCode);
      afcMode := mode;
    }
  }
}
