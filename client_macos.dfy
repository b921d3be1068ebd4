/** `client/activator_macos.py`: the RFC 4122 check `validate_guid`, the
    `tracev3` parser that looks within 512 bytes of each non-overlapping
    `BLDatabaseManager` match, the proximity scorer `analyze_guids`, the
    attempt loop of `get_guid_auto`, and the `run` sequence that validates
    the downloaded payload before touching the device. This variant's
    command runner does not strip outputs. */
module ClientMacos {
  import opened Wrappers
  import opened Bytes
  import opened Search
  import opened Text
  import opened GuidShape
  import opened Scoring
  import opened Extraction
  import opened DeviceSession
  import opened RetryLoop

  // ---------------------------------------------------------------------
  // validate_guid

  /** `validate_guid`: `UUID_PATTERN` matches, the third group starts with
      `4` and the fourth with one of `89AB`. */
  function ValidateGuid(guid: string): bool {
    if !UuidPatternMatch(guid) then false
    else
      PatternGroups(guid);
      var parts := Split(guid, '-');
      parts[2][0] == '4' && parts[3][0] in "89AB"
  }

  /** A string the pattern matches splits into the five groups, the third
      starting at offset 14 and the fourth at offset 19. */
  lemma PatternGroups(s: string)
    requires UuidPatternMatch(s)
    ensures Split(s, '-') == Groups(s)
    ensures |Split(s, '-')| == 5 && |Split(s, '-')[2]| == 4 && |Split(s, '-')[3]| == 4
    ensures Split(s, '-')[2][0] == s[14] && Split(s, '-')[3][0] == s[19]
  {
    PatternDashes(s);
    SplitShaped(s);
    GroupsLengths(s);
  }

  /** A string the pattern matches has its dashes at the four GUID offsets
      and nowhere else. */
  lemma PatternDashes(s: string)
    requires UuidPatternMatch(s)
    ensures |s| >= GUID_LEN
    ensures forall i :: 0 <= i < GUID_LEN ==> (s[i] == '-' <==> IsDashIndex(i))
    ensures forall i :: GUID_LEN <= i < |s| ==> s[i] != '-'
  {
    var t := s[..GUID_LEN];
    assert IsGuidShape(t);
    assert forall i :: 0 <= i < GUID_LEN ==> s[i] == t[i];
  }

  /** The check accepts exactly what the pattern matches with version
      nibble `4` and an upper-case variant nibble `8`, `9`, `A` or `B`. */
  lemma ValidateGuidIff(s: string)
    ensures ValidateGuid(s) <==> UuidPatternMatch(s) && s[14] == '4' && s[19] in "89AB"
  {
    if UuidPatternMatch(s) {
      PatternGroups(s);
    }
  }

  /** The pattern ignores case but the variant test does not: a GUID whose
      variant nibble is `a` or `b` fails, while its upper-cased form
      passes. */
  lemma LowerVariantRejected(s: string)
    requires UuidPatternMatch(s) && s[14] == '4' && s[19] in "ab"
    ensures !ValidateGuid(s)
    ensures ValidateGuid(Upper(s))
  {
    ValidateGuidIff(s);
    var u := Upper(s);
    UpperShape(s[..GUID_LEN]);
    assert u[..GUID_LEN] == Upper(s[..GUID_LEN]);
    if |s| == GUID_LEN + 1 {
      assert u[GUID_LEN] == UpperChar(s[GUID_LEN]);
    }
    ValidateGuidIff(u);
  }

  /** Upper-casing keeps the GUID shape and makes every hex digit
      upper-case; no other character becomes a hex digit. */
  lemma UpperShape(t: string)
    requires |t| == GUID_LEN
    ensures IsGuidShape(Upper(t)) <==> IsGuidShape(t)
    ensures IsGuidShape(t) ==> IsUpperGuid(Upper(t))
  {
    var u := Upper(t);
    assert forall i :: 0 <= i < GUID_LEN ==> u[i] == UpperChar(t[i]);
  }

  // ---------------------------------------------------------------------
  // parse_tracev3_guids

  /** The window `data[max(0, pos - 512):pos + 512]`. */
  const REACH: nat := 512

  /** The anchors: `re.finditer(b'BLDatabaseManager', data)`. */
  function Anchors(data: seq<byte>): seq<nat> {
    NonOverlapping(data, BL_DATABASE_MANAGER, 0)
  }

  function MacCandidates(data: seq<byte>): seq<Candidate> {
    AllCandidates(data, Anchors(data), REACH, REACH, ValidateGuid)
  }

  /** `parse_tracev3_guids`: for each anchor, the GUID-shaped matches in its
      window, upper-cased, that `validate_guid` accepts, each with its offset
      from the anchor. */
  method ParseTracev3Guids(data: seq<byte>) returns (cs: seq<Candidate>)
    ensures cs == MacCandidates(data)
  {
    var anchors := NonOverlapping(data, BL_DATABASE_MANAGER, 0);
    cs := [];
    for k := 0 to |anchors|
      invariant cs == AllCandidates(data, anchors[..k], REACH, REACH, ValidateGuid)
    {
      var around := ExtractAround(data, anchors[k], REACH, REACH, ValidateGuid);
      PrefixSnoc(data, anchors, k);
      cs := cs + around;
    }
    assert anchors[..|anchors|] == anchors;
  }

  lemma PrefixSnoc(data: seq<byte>, anchors: seq<nat>, k: nat)
    requires k < |anchors|
    ensures AllCandidates(data, anchors[..k + 1], REACH, REACH, ValidateGuid)
      == AllCandidates(data, anchors[..k], REACH, REACH, ValidateGuid)
         + AnchorCandidates(data, anchors[k], REACH, REACH, ValidateGuid)
  {
    assert anchors[..k + 1] == anchors[..k] + [anchors[k]];
    AllCandidatesSnoc(data, anchors[..k], anchors[k], REACH, REACH, ValidateGuid);
  }

  /** Every candidate belongs to one anchor `q`: its 36 bytes lie in the
      window, it is an upper-case GUID that passes the check, and its
      offset is between `max(-512, -q)` and `512 - 36`. */
  lemma MacCandidatesSound(data: seq<byte>)
    ensures forall i :: 0 <= i < |MacCandidates(data)| ==>
      exists a :: 0 <= a < |Anchors(data)| && OccursAt(data, BL_DATABASE_MANAGER, Anchors(data)[a])
        && NearAnchor(data, Anchors(data)[a], REACH, REACH, ValidateGuid, MacCandidates(data)[i])
        && (if Anchors(data)[a] >= REACH then -(REACH as int) else -(Anchors(data)[a] as int))
           <= MacCandidates(data)[i].position <= REACH - GUID_LEN
  {
    var cs := MacCandidates(data);
    var anchors := Anchors(data);
    AllCandidatesSound(data, anchors, REACH, REACH, ValidateGuid);
    NonOverlappingSound(data, BL_DATABASE_MANAGER, 0);
  }

  /** A candidate needs an anchor: a buffer without `BLDatabaseManager` has
      no candidate. */
  lemma CandidateNeedsAnchor(data: seq<byte>)
    ensures MacCandidates(data) != [] ==> Anchors(data) != []
    ensures Anchors(data) != [] ==> Occurrences(data, BL_DATABASE_MANAGER, 0) != {}
  {
    if Anchors(data) != [] {
      var p := Find(data, BL_DATABASE_MANAGER, 0);
      FindSpec(data, BL_DATABASE_MANAGER, 0);
      assert p as nat in Occurrences(data, BL_DATABASE_MANAGER, 0);
    }
  }

  // ---------------------------------------------------------------------
  // analyze_guids

  /** Ten per occurrence, two per occurrence less than 32 bytes away. */
  const WEIGHTS: Weights := Weights(10, 32, 2, 0)

  /** `analyze_guids`: `None` for no candidates, otherwise the head of the
      ranking. */
  function AnalyzeGuids(cs: seq<Candidate>): Option<string> {
    if cs == [] then None
    else
      var scored := Ranking(cs, WEIGHTS);
      if scored == [] then None else Some(scored[0].guid)
  }

  /** The GUID chosen is a candidate whose score `10 * count + 2 * close` no
      other candidate exceeds, and among those with its score the one that
      appeared first; there is none only for no candidates. */
  lemma AnalyzeGuidsBest(cs: seq<Candidate>)
    ensures AnalyzeGuids(cs).None? <==> cs == []
    ensures AnalyzeGuids(cs).Some? ==>
      var g := AnalyzeGuids(cs).value;
      var gs := Guids(cs);
      g in gs
      && (forall h :: h in gs ==>
            10 * Count(gs, h) + 2 * CountClose(cs, h, 32) <= 10 * Count(gs, g) + 2 * CountClose(cs, g, 32))
      && (forall h :: h in gs && Score(cs, h, WEIGHTS) == Score(cs, g, WEIGHTS) ==>
            FirstIndex(gs, g) <= FirstIndex(gs, h))
  {
    if cs != [] {
      var gs := Guids(cs);
      assert gs[0] in gs;
      RankingHead(cs, WEIGHTS, gs[0]);
      var g := AnalyzeGuids(cs).value;
      forall h | h in gs
        ensures Score(cs, h, WEIGHTS) <= Score(cs, g, WEIGHTS)
        ensures Score(cs, h, WEIGHTS) == Score(cs, g, WEIGHTS) ==> FirstIndex(gs, g) <= FirstIndex(gs, h)
      {
        RankingHead(cs, WEIGHTS, h);
      }
    }
  }

  // ---------------------------------------------------------------------
  // collect_and_extract_guid and get_guid_auto

  /** What one extraction gets: the output of `idevice_id -l`, the exit code
      of `pymobiledevice3 syslog collect`, whether the archive holds the
      `tracev3` file, and its bytes. */
  datatype CollectInput = CollectInput(udidOut: string, collectCode: int, traceFound: bool, data: seq<byte>)

  const NO_UDID: string := "Failed to get UDID"

  /** `collect_and_extract_guid`: an empty identifier raises; a failed
      collection or a missing file gives `None`; otherwise the analysed
      candidates of the file. */
  function CollectOutcome(c: CollectInput): Result<Option<string>, string> {
    if Strip(c.udidOut) == "" then Err(NO_UDID)
    else if c.collectCode != 0 then Ok(None)
    else if !c.traceFound then Ok(None)
    else Ok(AnalyzeGuids(MacCandidates(c.data)))
  }

  method CollectAndExtractGuid(c: CollectInput) returns (r: Result<Option<string>, string>)
    ensures r == CollectOutcome(c)
  {
    var udid := Strip(c.udidOut);
    if udid == "" {
      return Err(NO_UDID);
    }
    if c.collectCode != 0 {
      return Ok(None);
    }
    if !c.traceFound {
      return Ok(None);
    }
    var cands := ParseTracev3Guids(c.data);
    var guid := AnalyzeGuids(cands);
    return Ok(guid);
  }

  /** A GUID an extraction returns is a candidate of the buffer that passes
      the check, of best score; a buffer without the anchor gives none. */
  lemma CollectFound(c: CollectInput)
    ensures CollectOutcome(c).Ok? && CollectOutcome(c).value.Some? ==>
      var g := CollectOutcome(c).value.value;
      g in Guids(MacCandidates(c.data)) && ValidateGuid(g) && IsUpperGuid(g)
      && forall h :: h in Guids(MacCandidates(c.data)) ==>
           Score(MacCandidates(c.data), h, WEIGHTS) <= Score(MacCandidates(c.data), g, WEIGHTS)
    ensures Strip(c.udidOut) != "" && Occurrences(c.data, BL_DATABASE_MANAGER, 0) == {} ==>
      CollectOutcome(c) == Ok(None)
  {
    var cs := MacCandidates(c.data);
    AnalyzeGuidsBest(cs);
    if CollectOutcome(c).Ok? && CollectOutcome(c).value.Some? {
      var g := CollectOutcome(c).value.value;
      var i :| 0 <= i < |cs| && Guids(cs)[i] == g;
      MacCandidatesSound(c.data);
      var a :| 0 <= a < |Anchors(c.data)| && NearAnchor(c.data, Anchors(c.data)[a], REACH, REACH, ValidateGuid, cs[i]);
    }
    CandidateNeedsAnchor(c.data);
  }

  /** The extractions of the attempts, `collect(n)` what attempt `n` sees;
      they do not depend on the device information. */
  function Collects(collect: nat -> CollectInput): Outcomes {
    (info: map<string, string>, n: nat) => CollectOutcome(collect(n))
  }

  /** What `detect_device` raises: the command's error output, or `unknown`
      when there is none. */
  function Lost(c: CommandResult): string {
    "Device not found: " + (if c.err == "" then "unknown" else c.err)
  }

  /** `detect_device`: a failing `ideviceinfo` raises; otherwise the parsed
      output. */
  method DetectDevice(c: CommandResult) returns (r: Result<map<string, string>, string>)
    ensures c.code != 0 ==> r == Err(Lost(c))
    ensures c.code == 0 ==> r == Ok(InfoOf(SplitLines(c.out)))
  {
    r := DetectInfo(c, false, Lost(c));
  }

  const MAX_ATTEMPTS: nat := 10
  const EXHAUSTED: string := "GUID auto-detection failed after all attempts"

  /** The value of `get_guid_auto` after its loop: the GUID found, the error
      raised, or the exhaustion error. */
  function AutoResult(run: RetryRun): Result<string, string> {
    if run.result.Err? then Err(run.result.error)
    else if run.result.value.Some? then Ok(run.result.value.value)
    else Err(EXHAUSTED)
  }

  /** `reboot_device` as the attempt loop calls it: the restart commands and
      the poll for the device, of which only the success flag is kept; the
      manual fallback always succeeds. */
  method Reboot(rb: RebootInput) returns (ok: bool)
    ensures ok <==> Reconnects(rb.restartCode, rb.diagnosticsCode, rb.pollCode)
  {
    var polls;
    ok, polls := RebootDevice(rb.restartCode, rb.diagnosticsCode, rb.pollCode);
  }

  /** One pass of the attempt loop: an extraction and, when it found nothing
      and was not the last, a reboot and a re-detection. `stop` says the loop
      ends here with `g`; `t` is what the pass records and `info'` the device
      information the re-detection parsed. */
  method AutoPass(attempt: nat, max: nat, collect: nat -> CollectInput, reboot: nat -> RebootInput,
                  detect: nat -> CommandResult, ghost info: map<string, string>)
    returns (g: Result<Option<string>, string>, stop: bool, ghost t: seq<Event>, ghost info': map<string, string>)
    requires 0 < attempt <= max
    ensures stop ==>
      Retry(info, attempt - 1, max, Collects(collect), Lost, detect) == After(t, RetryRun(g, info, attempt, []))
    ensures !stop ==>
      Retry(info, attempt - 1, max, Collects(collect), Lost, detect)
      == After(t, Retry(info', attempt, max, Collects(collect), Lost, detect))
  {
    ghost var outcome := Collects(collect);
    g := CollectAndExtractGuid(collect(attempt));
    assert g == outcome(info, attempt);
    t := [Attempted(attempt)];
    info' := info;
    if g.Err? || g.value.Some? {
      RetryStops(info, attempt - 1, max, outcome, Lost, detect);
      return g, true, t, info;
    }
    if attempt < max {
      RetryRedetects(info, attempt - 1, max, outcome, Lost, detect);
      var _ := Reboot(reboot(attempt));
      var d := DetectDevice(detect(attempt));
      t := [Attempted(attempt), Rebooted, Detected];
      if d.Err? {
        return Err(d.error), true, t, info;
      }
      return g, false, t, d.value;
    }
    RetryExhausted(info, attempt - 1, max, outcome, Lost, detect);
    stop := false;
  }

  /** `get_guid_auto`: up to `max` extractions, rebooting and re-detecting
      between them; a reboot's result is ignored and the re-detected
      information is discarded. `trace` records the attempts, reboots and
      re-detections in order; the lemmas of `RetryLoop` bound them. */
  method GetGuidAuto(max: nat, collect: nat -> CollectInput, reboot: nat -> RebootInput,
                     detect: nat -> CommandResult)
    returns (r: Result<string, string>, ghost trace: seq<Event>)
    ensures var run := Retry(map[], 0, max, Collects(collect), Lost, detect);
      r == AutoResult(run) && trace == run.trace
  {
    ghost var info: map<string, string> := map[];
    ghost var start := Retry(info, 0, max, Collects(collect), Lost, detect);
    trace := [];
    assert start == After(trace, start);
    for attempt := 1 to max + 1
      invariant start == After(trace, Retry(info, attempt - 1, max, Collects(collect), Lost, detect))
    {
      var g, stop, t, info' := AutoPass(attempt, max, collect, reboot, detect, info);
      if stop {
        AfterAfter(trace, t, RetryRun(g, info, attempt, []));
        trace := trace + t;
        return AutoResult(RetryRun(g, map[], attempt, [])), trace;
      }
      AfterAfter(trace, t, Retry(info', attempt, max, Collects(collect), Lost, detect));
      trace := trace + t;
      info := info';
    }
    assert trace + [] == trace;
    return Err(EXHAUSTED), trace;
  }

  /** The attempt loop makes at most `max` extractions, ends with the
      exhaustion error only after all of them, and reboots only between
      attempts: each reboot follows an attempt before the last. */
  lemma AutoBounded(max: nat, collect: nat -> CollectInput, detect: nat -> CommandResult)
    ensures var run := Retry(map[], 0, max, Collects(collect), Lost, detect);
      run.attempts <= max && AttemptsIn(run.trace) == run.attempts
      && (AutoResult(run) == Err(EXHAUSTED) && run.result.Ok? ==> run.attempts == max)
      && RebootedBefore(run.trace, max)
  {
    RetryAttempts(map[], 0, max, Collects(collect), Lost, detect);
    RetryCount(map[], 0, max, Collects(collect), Lost, detect);
    RetryOrder(map[], 0, max, Collects(collect), Lost, detect);
  }

  // ---------------------------------------------------------------------
  // get_guid_manual

  /** One reply at the manual prompt: stripped, upper-cased, accepted when
      `validate_guid` passes. */
  function MacManualGuid(reply: string): Option<string> {
    var g := Upper(Strip(reply));
    if ValidateGuid(g) then Some(g) else None
  }

  /** A reply is accepted exactly when, stripped, it has the GUID shape,
      version nibble `4` and a variant nibble in `89ABab`; the GUID is the
      reply in upper case. */
  lemma MacManualIff(reply: string)
    ensures var t := Strip(reply);
      MacManualGuid(reply).Some? <==> IsGuidShape(t) && t[14] == '4' && t[19] in "89ABab"
    ensures MacManualGuid(reply).Some? ==>
      MacManualGuid(reply).value == Upper(Strip(reply)) && IsUpperGuid(MacManualGuid(reply).value)
  {
    var t := Strip(reply);
    var u := Upper(t);
    ValidateGuidIff(u);
    if |t| == GUID_LEN {
      UpperShape(t);
      assert u[..GUID_LEN] == u;
      assert u[14] == UpperChar(t[14]) && u[19] == UpperChar(t[19]);
      UpperNibbles(t[14]);
      UpperNibbles(t[19]);
    } else if |t| == GUID_LEN + 1 {
      assert u[GUID_LEN] == UpperChar(t[GUID_LEN]);
      UpperNibbles(t[GUID_LEN]);
      assert IsSpace('\n');
    }
  }

  /** Upper-casing keeps `4` and the newline, and turns exactly `89ABab`
      into `89AB`. */
  lemma UpperNibbles(c: char)
    ensures UpperChar(c) == '4' <==> c == '4'
    ensures UpperChar(c) == '\n' <==> c == '\n'
    ensures UpperChar(c) in "89AB" <==> c in "89ABab"
  {
  }

  // ---------------------------------------------------------------------
  // run

  const API_URL: string := "https://codex-r1nderpest-a12.ru/get2.php"
  const DB_LOCAL: string := "downloads.28.sqlitedb"
  const DB_REMOTE: string := "/Downloads/downloads.28.sqlitedb"

  /** What `run` does to the outside: a request, a download to a local path,
      a local deletion, a deletion on the device, a push to the device. */
  datatype Action =
    | Request(url: string)
    | Download(url: string, path: string)
    | Unlink(path: string)
    | Remove(remote: string)
    | Push(local: string, remote: string)

  predicate OnDevice(a: Action) {
    a.Remove? || a.Push?
  }

  /** The server's reply: not the expected JSON (with the reason), a reply
      without `success`, or the three stage links. */
  datatype ServerReply = Malformed(reason: string) | Refused | Links(stage1: string, stage2: string, stage3: string)

  /** What the steps after the GUID get back: the exit code of the request,
      the reply, whether each download succeeded, what the database check
      found (an error of `sqlite3` itself, the `asset` table, its row count),
      and whether the push succeeded. */
  datatype DeployInput = DeployInput(
    requestCode: int, reply: ServerReply, stage1Ok: bool, stage2Ok: bool, finalOk: bool,
    dbError: Option<string>, hasAssetTable: bool, rowCount: nat, pushOk: bool)

  /** The database passes the check. */
  predicate PayloadValid(d: DeployInput) {
    d.dbError.None? && d.hasAssetTable && d.rowCount > 0
  }

  /** One optional pre-download: the local file, the link, and whether the
      download succeeded. */
  datatype Stage = Stage(path: string, url: string, ok: bool)

  /** `Stage1` and `Stage2`, downloaded to `tmp_stage1` and `tmp_stage2`. */
  function Stages(d: DeployInput): seq<Stage>
    requires d.reply.Links?
  {
    [Stage("tmp_stage1", d.reply.stage1, d.stage1Ok), Stage("tmp_stage2", d.reply.stage2, d.stage2Ok)]
  }

  /** The pre-download loop: each stage is downloaded and, when that
      succeeded, deleted again; a failure is ignored. */
  function PreLoad(stages: seq<Stage>): seq<Action> {
    if stages == [] then []
    else
      var s := stages[|stages| - 1];
      PreLoad(stages[..|stages| - 1]) + [Download(s.url, s.path)] + (if s.ok then [Unlink(s.path)] else [])
  }

  /** The pre-downloads touch only local files, and each stage leaves its
      file behind exactly when its download failed. */
  lemma {:induction false} PreLoadLocal(stages: seq<Stage>)
    ensures forall i :: 0 <= i < |PreLoad(stages)| ==> !OnDevice(PreLoad(stages)[i])
    ensures forall s :: s in stages ==> (Download(s.url, s.path) in PreLoad(stages))
    ensures forall p :: Unlink(p) in PreLoad(stages) <==> exists s :: s in stages && s.ok && s.path == p
  {
    if stages != [] {
      var init := stages[..|stages| - 1];
      PreLoadLocal(init);
      assert stages == init + [stages[|stages| - 1]];
    }
  }

  const INVALID_DB: string := "Invalid DB: "

  /** What the check of an invalid database reports: the error of `sqlite3`
      itself, a missing `asset` table, or an empty one. */
  function DbProblem(d: DeployInput): string
    requires !PayloadValid(d)
  {
    if d.dbError.Some? then d.dbError.value
    else if !d.hasAssetTable then "No 'asset' table"
    else "Empty asset table"
  }

  function PayloadUrl(prd: string, guid: string, sn: string): string {
    API_URL + "?prd=" + prd + "&guid=" + guid + "&sn=" + sn
  }

  /** The request step, the optional stage downloads, the final download
      and its check, and the upload, with what each does. */
  function DeployOutcome(device: map<string, string>, guid: string, d: DeployInput): (Result<(), string>, seq<Action>) {
    if "ProductType" !in device then (Err("'ProductType'"), [])
    else if "SerialNumber" !in device then (Err("'SerialNumber'"), [])
    else
      var ask := [Request(PayloadUrl(device["ProductType"], guid, device["SerialNumber"]))];
      if d.requestCode != 0 then (Err("Server request failed"), ask)
      else match d.reply
        case Malformed(reason) => (Err("Invalid server response: " + reason), ask)
        case Refused => (Err("Invalid server response: Server returned error"), ask)
        case Links(s1, s2, s3) =>
          var pre := ask + PreLoad(Stages(d)) + [Download(s3, DB_LOCAL)];
          if !d.finalOk then (Err("Final payload download failed"), pre)
          else if !PayloadValid(d) then (Err(INVALID_DB + DbProblem(d)), pre + [Unlink(DB_LOCAL)])
          else
            var up := pre + [Remove(DB_REMOTE), Remove(DB_REMOTE + "-wal"), Remove(DB_REMOTE + "-shm"),
                             Push(DB_LOCAL, DB_REMOTE)];
            if !d.pushOk then (Err("AFC upload failed"), up) else (Ok(()), up + [Unlink(DB_LOCAL)])
  }

  /** Steps 4 to 7 of `run`: request the stage links, pre-load the first two
      stages, download the final payload, check it, and upload it. */
  method Deploy(device: map<string, string>, guid: string, d: DeployInput)
    returns (r: Result<(), string>, acts: seq<Action>)
    ensures (r, acts) == DeployOutcome(device, guid, d)
  {
    if "ProductType" !in device {
      return Err("'ProductType'"), [];
    }
    var prd := device["ProductType"];
    if "SerialNumber" !in device {
      return Err("'SerialNumber'"), [];
    }
    var sn := device["SerialNumber"];
    acts := [Request(PayloadUrl(prd, guid, sn))];
    if d.requestCode != 0 {
      return Err("Server request failed"), acts;
    }
    if d.reply.Malformed? {
      return Err("Invalid server response: " + d.reply.reason), acts;
    }
    if d.reply.Refused? {
      return Err("Invalid server response: Server returned error"), acts;
    }
    var ask := acts;
    var stages := Stages(d);
    for k := 0 to |stages|
      invariant acts == ask + PreLoad(stages[..k])
    {
      assert stages[..k + 1][..k] == stages[..k];
      acts := acts + [Download(stages[k].url, stages[k].path)];
      if stages[k].ok {
        acts := acts + [Unlink(stages[k].path)];
      }
    }
    assert stages[..|stages|] == stages;
    acts := acts + [Download(d.reply.stage3, DB_LOCAL)];
    if !d.finalOk {
      return Err("Final payload download failed"), acts;
    }
    var problem: Option<string> := None;
    if d.dbError.Some? {
      problem := d.dbError;
    } else if !d.hasAssetTable {
      problem := Some("No 'asset' table");
    } else if d.rowCount == 0 {
      problem := Some("Empty asset table");
    }
    if problem.Some? {
      acts := acts + [Unlink(DB_LOCAL)];
      return Err(INVALID_DB + problem.value), acts;
    }
    acts := acts + [Remove(DB_REMOTE), Remove(DB_REMOTE + "-wal"), Remove(DB_REMOTE + "-shm"),
                    Push(DB_LOCAL, DB_REMOTE)];
    if !d.pushOk {
      return Err("AFC upload failed"), acts;
    }
    acts := acts + [Unlink(DB_LOCAL)];
    r := Ok(());
  }

  /** Nothing touches the device unless the downloaded database passed the
      check; a database that fails it is deleted locally and ends the run
      with an `Invalid DB` error and no change on the device; the run
      succeeds exactly when every step does, after replacing the payload
      and its journal files on the device. */
  lemma ValidateBeforeUpload(device: map<string, string>, guid: string, d: DeployInput)
    ensures var (r, acts) := DeployOutcome(device, guid, d);
      (exists i :: 0 <= i < |acts| && OnDevice(acts[i])) ==> d.finalOk && PayloadValid(d)
    ensures var (r, acts) := DeployOutcome(device, guid, d);
      ("ProductType" in device && "SerialNumber" in device && d.requestCode == 0 && d.reply.Links?
       && d.finalOk && !PayloadValid(d)) ==>
        r.Err? && r.error[..|INVALID_DB|] == INVALID_DB
        && acts != [] && acts[|acts| - 1] == Unlink(DB_LOCAL)
        && forall i :: 0 <= i < |acts| ==> !OnDevice(acts[i])
    ensures var (r, acts) := DeployOutcome(device, guid, d);
      r.Ok? <==> "ProductType" in device && "SerialNumber" in device && d.requestCode == 0 && d.reply.Links?
                 && d.finalOk && PayloadValid(d) && d.pushOk
    ensures var (r, acts) := DeployOutcome(device, guid, d);
      r.Ok? ==> |acts| >= 5 && acts[|acts| - 5..] == [Remove(DB_REMOTE), Remove(DB_REMOTE + "-wal"),
                 Remove(DB_REMOTE + "-shm"), Push(DB_LOCAL, DB_REMOTE), Unlink(DB_LOCAL)]
  {
    DeployLocalUntilValid(device, guid, d);
    DeployInvalid(device, guid, d);
    DeployOkTail(device, guid, d);
  }

  /** Up to the final download, every action is local or a request. */
  lemma DeployPreLocal(device: map<string, string>, guid: string, d: DeployInput)
    requires "ProductType" in device && "SerialNumber" in device && d.requestCode == 0 && d.reply.Links?
    ensures var ask := [Request(PayloadUrl(device["ProductType"], guid, device["SerialNumber"]))];
      var pre := ask + PreLoad(Stages(d)) + [Download(d.reply.stage3, DB_LOCAL)];
      (forall i :: 0 <= i < |pre| ==> !OnDevice(pre[i]))
      && (!d.finalOk ==> DeployOutcome(device, guid, d).1 == pre)
      && (d.finalOk && !PayloadValid(d) ==>
            DeployOutcome(device, guid, d) == (Err(INVALID_DB + DbProblem(d)), pre + [Unlink(DB_LOCAL)]))
  {
    PreLoadLocal(Stages(d));
  }

  /** Nothing reaches the device before the final payload passes the check. */
  lemma DeployLocalUntilValid(device: map<string, string>, guid: string, d: DeployInput)
    ensures var (r, acts) := DeployOutcome(device, guid, d);
      (exists i :: 0 <= i < |acts| && OnDevice(acts[i])) ==> d.finalOk && PayloadValid(d)
  {
    if !(d.finalOk && PayloadValid(d)) {
      DeployStaysLocal(device, guid, d);
    }
  }

  /** Short of a final payload that passed the check, every action is local
      or a request. */
  lemma DeployStaysLocal(device: map<string, string>, guid: string, d: DeployInput)
    requires !(d.finalOk && PayloadValid(d))
    ensures forall i :: 0 <= i < |DeployOutcome(device, guid, d).1| ==> !OnDevice(DeployOutcome(device, guid, d).1[i])
  {
    if "ProductType" in device && "SerialNumber" in device && d.requestCode == 0 && d.reply.Links? {
      DeployPreLocal(device, guid, d);
      DeployInvalid(device, guid, d);
    }
  }

  /** A payload that fails the check is deleted locally, and the run ends
      with an `Invalid DB` error. */
  lemma DeployInvalid(device: map<string, string>, guid: string, d: DeployInput)
    ensures var (r, acts) := DeployOutcome(device, guid, d);
      ("ProductType" in device && "SerialNumber" in device && d.requestCode == 0 && d.reply.Links?
       && d.finalOk && !PayloadValid(d)) ==>
        r.Err? && r.error[..|INVALID_DB|] == INVALID_DB
        && acts != [] && acts[|acts| - 1] == Unlink(DB_LOCAL)
        && forall i :: 0 <= i < |acts| ==> !OnDevice(acts[i])
  {
    if "ProductType" in device && "SerialNumber" in device && d.requestCode == 0 && d.reply.Links?
       && d.finalOk && !PayloadValid(d) {
      DeployPreLocal(device, guid, d);
      var ask := [Request(PayloadUrl(device["ProductType"], guid, device["SerialNumber"]))];
      var pre := ask + PreLoad(Stages(d)) + [Download(d.reply.stage3, DB_LOCAL)];
      var acts := pre + [Unlink(DB_LOCAL)];
      assert forall i :: 0 <= i < |acts| ==> !OnDevice(acts[i]) by {
        forall i | 0 <= i < |acts| ensures !OnDevice(acts[i]) {
          if i < |pre| { assert acts[i] == pre[i]; }
        }
      }
    }
  }

  /** A run succeeds only through the upload, which ends with the five
      device-side steps. */
  lemma DeployOkTail(device: map<string, string>, guid: string, d: DeployInput)
    ensures var (r, acts) := DeployOutcome(device, guid, d);
      r.Ok? <==> "ProductType" in device && "SerialNumber" in device && d.requestCode == 0 && d.reply.Links?
                 && d.finalOk && PayloadValid(d) && d.pushOk
    ensures var (r, acts) := DeployOutcome(device, guid, d);
      r.Ok? ==> |acts| >= 5 && acts[|acts| - 5..] == [Remove(DB_REMOTE), Remove(DB_REMOTE + "-wal"),
                 Remove(DB_REMOTE + "-shm"), Push(DB_LOCAL, DB_REMOTE), Unlink(DB_LOCAL)]
  {
  }

  /** The names of the required tools, in the order they are checked. */
  const TOOLS: seq<string> := ["ideviceinfo", "idevice_id", "pymobiledevice3"]

  /** The index of the first tool not found, or 3 when all are. */
  function FirstMissing(found: seq<bool>): (k: nat)
    requires |found| == |TOOLS|
    ensures k <= |TOOLS| && forall i :: 0 <= i < k ==> found[i]
    ensures k < |TOOLS| ==> !found[k]
  {
    if !found[0] then 0 else if !found[1] then 1 else if !found[2] then 2 else 3
  }

  /** The GUID step of `run`: a preset GUID is used as given; otherwise the
      automatic search in auto mode or on choice `1`, else manual entry.
      `replies` are the lines typed at the manual prompt; running out of
      them ends the program. */
  method ChooseGuid(preset: Option<string>, auto: bool, choice: string, collect: nat -> CollectInput,
                    reboot: nat -> RebootInput, detect: nat -> CommandResult, replies: seq<string>)
    returns (r: Result<string, string>)
    ensures preset.Some? && preset.value != "" ==> r == Ok(preset.value)
    ensures (preset.None? || preset.value == "") && (auto || Strip(choice) == "1") ==>
      r == AutoResult(Retry(map[], 0, MAX_ATTEMPTS, Collects(collect), Lost, detect))
    ensures (preset.None? || preset.value == "") && !auto && Strip(choice) != "1" ==>
      r == (if ManualEntry(replies, MacManualGuid).Some? then Ok(ManualEntry(replies, MacManualGuid).value) else Err(NO_GUID))
  {
    if preset.Some? && preset.value != "" {
      return Ok(preset.value);
    }
    if auto || Strip(choice) == "1" {
      ghost var trace;
      r, trace := GetGuidAuto(MAX_ATTEMPTS, collect, reboot, detect);
      return;
    }
    var entered, _ := GetGuidManual(replies, MacManualGuid);
    if entered.None? {
      return Err(NO_GUID);
    }
    return Ok(entered.value);
  }

  /** What the GUID step of `run` gives, by its three cases. */
  function GuidStep(preset: Option<string>, auto: bool, choice: string, collect: nat -> CollectInput,
                    detect: nat -> CommandResult, replies: seq<string>): Result<string, string> {
    if preset.Some? && preset.value != "" then Ok(preset.value)
    else if auto || Strip(choice) == "1" then AutoResult(Retry(map[], 0, MAX_ATTEMPTS, Collects(collect), Lost, detect))
    else if ManualEntry(replies, MacManualGuid).Some? then Ok(ManualEntry(replies, MacManualGuid).value)
    else Err(NO_GUID)
  }

  /** `run` up to the upload: the tool check, the detection, the GUID step
      and the deployment, each ending the run on failure. The device is
      touched only after the payload passed the check. */
  method Run(found: seq<bool>, device: CommandResult, preset: Option<string>, auto: bool, choice: string,
             collect: nat -> CollectInput, reboot: nat -> RebootInput, detect: nat -> CommandResult,
             replies: seq<string>, d: DeployInput)
    returns (r: Result<(), string>, acts: seq<Action>)
    requires |found| == |TOOLS|
    ensures FirstMissing(found) < |TOOLS| ==>
      r == Err("Required tool missing: " + TOOLS[FirstMissing(found)]) && acts == []
    ensures FirstMissing(found) == |TOOLS| && device.code != 0 ==> r == Err(Lost(device)) && acts == []
    ensures (exists i :: 0 <= i < |acts| && OnDevice(acts[i])) ==> d.finalOk && PayloadValid(d)
    ensures r.Ok? ==> FirstMissing(found) == |TOOLS| && device.code == 0 && PayloadValid(d) && d.pushOk
    ensures FirstMissing(found) == |TOOLS| && device.code == 0 ==>
      var g := GuidStep(preset, auto, choice, collect, detect, replies);
      (g.Err? ==> r == Err(g.error) && acts == [])
      && (g.Ok? ==> (r, acts) == DeployOutcome(InfoOf(SplitLines(device.out)), g.value, d))
  {
    var k := FirstMissing(found);
    if k < |TOOLS| {
      return Err("Required tool missing: " + TOOLS[k]), [];
    }
    var info := DetectDevice(device);
    if info.Err? {
      return Err(info.error), [];
    }
    var guid := ChooseGuid(preset, auto, choice, collect, reboot, detect, replies);
    assert guid == GuidStep(preset, auto, choice, collect, detect, replies);
    if guid.Err? {
      return Err(guid.error), [];
    }
    r, acts := Deploy(info.value, guid.value, d);
    ValidateBeforeUpload(info.value, guid.value, d);
  }
}
