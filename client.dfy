/** `client/activator.py`: the raw `tracev3` scan that visits every
    `BLDatabaseManager` occurrence, extraction within about a kilobyte of
    each with the "not trash" zero-count filter, the most-common selection,
    and the `BypassAutomation` object whose transport mode, device
    information and GUID the steps of `run` update. This variant's command
    runner strips every output and error text. */
module Client {
  import opened Wrappers
  import opened Bytes
  import opened Search
  import opened Text
  import opened GuidShape
  import opened Scoring
  import opened Extraction
  import opened DeviceSession
  import Transport

  /** The reach of the search window on each side of an anchor. */
  const REACH: nat := 1024

  /** The window ends `len(needle) + 1024` bytes after the anchor. */
  const AFTER: nat := |BL_DATABASE_MANAGER| + REACH

  /** The "not trash" filter: at least eight characters remain once every
      `0` and every `-` is deleted. */
  predicate NotTrash(g: string) {
    |RemoveChar(RemoveChar(g, '0'), '-')| >= 8
  }

  /** The filter only counts zeros and dashes: it takes a string exactly
      when at least eight of its characters are neither. There is no
      version or variant check. */
  lemma NotTrashIff(g: string)
    ensures NotTrash(g) <==> multiset(g)['0'] + multiset(g)['-'] + 8 <= |g|
  {
    var r := RemoveChar(g, '0');
    RemoveCharCounts(g, '0');
    RemoveCharCounts(r, '-');
    assert multiset(r)['-'] == multiset(g)['-'];
  }

  /** Every position of the needle, in increasing order. */
  function Anchors(data: seq<byte>): seq<nat> {
    AllFrom(data, BL_DATABASE_MANAGER, 0)
  }

  /** The candidates of all anchors, anchor by anchor. */
  function ClientCandidates(data: seq<byte>): seq<Candidate> {
    AllCandidates(data, Anchors(data), REACH, AFTER, NotTrash)
  }

  /** The first scan of `get_guid_auto`: `find` from the last hit plus one,
      counting hits. */
  method CountHits(data: seq<byte>) returns (found: bool, hits: nat)
    ensures hits == |Anchors(data)|
    ensures found <==> hits > 0
  {
    found, hits := CountScan(data, BL_DATABASE_MANAGER);
  }

  /** The counting loop, for any needle. */
  method CountScan<T(==)>(data: seq<T>, pat: seq<T>) returns (found: bool, hits: nat)
    ensures hits == |AllFrom(data, pat, 0)|
    ensures found <==> hits > 0
  {
    var pos: nat := 0;
    found, hits := false, 0;
    while true
      invariant pos <= |data| + 1
      invariant hits + |AllFrom(data, pat, pos)| == |AllFrom(data, pat, 0)|
      invariant found <==> hits > 0
      decreases |data| + 1 - pos
    {
      var p := Find(data, pat, pos);
      AllFromLength(data, pat, pos);
      if p == -1 {
        break;
      }
      pos := p + 1;
      found := true;
      hits := hits + 1;
    }
  }

  /** The second scan: the same hits, each with the candidates of its
      window. */
  method CollectCandidates(data: seq<byte>) returns (cs: seq<Candidate>)
    ensures cs == ClientCandidates(data)
  {
    ghost var seen: seq<nat> := [];
    var pos: nat := 0;
    cs := [];
    while true
      invariant pos <= |data| + 1
      invariant Anchors(data) == seen + AllFrom(data, BL_DATABASE_MANAGER, pos)
      invariant cs == AllCandidates(data, seen, REACH, AFTER, NotTrash)
      decreases |data| + 1 - pos
    {
      var p := Find(data, BL_DATABASE_MANAGER, pos);
      AllFromStep(Anchors(data), seen, data, BL_DATABASE_MANAGER, pos);
      if p == -1 {
        break;
      }
      var around := ExtractAround(data, p, REACH, AFTER, NotTrash);
      AllCandidatesSnoc(data, seen, p, REACH, AFTER, NotTrash);
      cs := cs + around;
      seen := seen + [p as nat];
      pos := p + 1;
    }
  }

  /** A candidate lies near an occurrence of the needle: its 36-byte match
      inside `[max(0, q - 1024), min(len, q + 17 + 1024))` for a position `q`
      where `BLDatabaseManager` occurs, its text the upper-cased match,
      accepted by the filter. */
  ghost predicate NearNeedle(data: seq<byte>, c: Candidate) {
    exists q :: OccursAt(data, BL_DATABASE_MANAGER, q) && NearAnchor(data, q, REACH, AFTER, NotTrash, c)
  }

  /** Every candidate lies near an occurrence of the needle. */
  lemma ClientCandidatesSound(data: seq<byte>)
    ensures forall i :: 0 <= i < |ClientCandidates(data)| ==> NearNeedle(data, ClientCandidates(data)[i])
  {
    forall i | 0 <= i < |ClientCandidates(data)|
      ensures NearNeedle(data, ClientCandidates(data)[i])
    {
      ClientCandidateSound(data, i);
    }
  }

  /** The soundness of one candidate. */
  lemma ClientCandidateSound(data: seq<byte>, i: nat)
    requires i < |ClientCandidates(data)|
    ensures NearNeedle(data, ClientCandidates(data)[i])
  {
    var cs := ClientCandidates(data);
    AllCandidatesSound(data, Anchors(data), REACH, AFTER, NotTrash);
    var a :| 0 <= a < |Anchors(data)| && NearAnchor(data, Anchors(data)[a], REACH, AFTER, NotTrash, cs[i]);
    AllFromExact(data, BL_DATABASE_MANAGER, 0, Anchors(data)[a]);
  }

  /** `Counter` weights that score a GUID by its count alone. */
  const COUNTS: Weights := Weights(1, 0, 0, 0)

  /** `Counter(candidates).most_common(1)[0]`: the first counter key of
      maximal count, with its count. */
  function MostCommon(cs: seq<Candidate>): Entry
    requires cs != []
  {
    var es := Entries(cs, COUNTS);
    assert Guids(cs)[0] in Guids(cs);
    es[FirstMaxIndex(es)]
  }

  /** The most common GUID is a candidate, no GUID is more frequent, and
      among the equally frequent ones it appeared first. */
  lemma MostCommonMaximal(cs: seq<Candidate>)
    requires cs != []
    ensures var e := MostCommon(cs);
      var gs := Guids(cs);
      e.guid in gs && e.count == Count(gs, e.guid)
      && (forall g :: g in gs ==> Count(gs, g) <= e.count)
      && (forall g :: g in gs && Count(gs, g) == e.count ==> FirstIndex(gs, e.guid) <= FirstIndex(gs, g))
  {
    var gs := Guids(cs);
    var es := Entries(cs, COUNTS);
    assert gs[0] in gs;
    assert es != [];
    SortDescHead(es);
    assert Ranking(cs, COUNTS)[0] == MostCommon(cs);
    RankingHead(cs, COUNTS, gs[0]);
    RankingFromKeys(cs, COUNTS, 0);
    forall g | g in gs
      ensures Count(gs, g) <= MostCommon(cs).count
      ensures Count(gs, g) == MostCommon(cs).count ==> FirstIndex(gs, MostCommon(cs).guid) <= FirstIndex(gs, g)
    {
      RankingHead(cs, COUNTS, g);
    }
  }

  /** What `get_guid_auto` gets from its environment: the exit code of
      `pymobiledevice3 syslog collect`, whether the archive and the
      `tracev3` file in it exist, and that file's bytes. */
  datatype AutoInput = AutoInput(collectCode: int, archiveExists: bool, traceFound: bool, data: seq<byte>)

  /** What `get_guid_auto` returns given the device information: a missing
      identifier raises, a failed collection, a missing file, a buffer
      without the needle and an empty candidate list give `None`, and
      otherwise the most common candidate, whether its count is at least
      two (or it is the only one) or not. */
  function AutoOutcome(info: map<string, string>, a: AutoInput): Result<Option<string>, string> {
    if UDID_KEY !in info then Err(MISSING_UDID)
    else if a.collectCode != 0 || !a.archiveExists then Ok(None)
    else if !a.traceFound then Ok(None)
    else if Anchors(a.data) == [] then Ok(None)
    else
      var cs := ClientCandidates(a.data);
      if cs == [] then Ok(None) else Ok(Some(MostCommon(cs).guid))
  }

  /** The cases without a GUID: a missing needle among them. */
  lemma AutoNone(info: map<string, string>, a: AutoInput)
    ensures AutoOutcome(info, a) == Ok(None) <==>
      UDID_KEY in info
      && (a.collectCode != 0 || !a.archiveExists || !a.traceFound || ClientCandidates(a.data) == [])
    ensures UDID_KEY in info && Occurrences(a.data, BL_DATABASE_MANAGER, 0) == {} ==>
      AutoOutcome(info, a) == Ok(None)
  {
    AllFromCount(a.data, BL_DATABASE_MANAGER, 0);
  }

  /** A GUID found is an upper-case GUID the filter takes, near an
      occurrence of the needle, and of maximal frequency among the
      candidates, the earliest on ties. */
  lemma AutoFound(info: map<string, string>, a: AutoInput, g: string)
    requires AutoOutcome(info, a) == Ok(Some(g))
    ensures var cs := ClientCandidates(a.data);
      var gs := Guids(cs);
      cs != [] && g in gs && IsUpperGuid(g) && NotTrash(g)
      && (exists i, q :: 0 <= i < |cs| && cs[i].guid == g && OccursAt(a.data, BL_DATABASE_MANAGER, q)
            && NearAnchor(a.data, q, REACH, AFTER, NotTrash, cs[i]))
      && (forall h :: h in gs ==> Count(gs, h) <= Count(gs, g))
      && (forall h :: h in gs && Count(gs, h) == Count(gs, g) ==> FirstIndex(gs, g) <= FirstIndex(gs, h))
  {
    AutoPicks(info, a, g);
    MostCommonMaximal(ClientCandidates(a.data));
    CandidateNear(a.data, g);
  }

  /** A candidate GUID is an upper-case GUID the filter takes, found near an
      occurrence of the needle. */
  lemma CandidateNear(data: seq<byte>, g: string)
    requires g in Guids(ClientCandidates(data))
    ensures var cs := ClientCandidates(data);
      IsUpperGuid(g) && NotTrash(g)
      && (exists i, q :: 0 <= i < |cs| && cs[i].guid == g && OccursAt(data, BL_DATABASE_MANAGER, q)
            && NearAnchor(data, q, REACH, AFTER, NotTrash, cs[i]))
  {
    var cs := ClientCandidates(data);
    var i :| 0 <= i < |cs| && Guids(cs)[i] == g;
    ClientCandidateSound(data, i);
  }

  /** A GUID found is the most common candidate of a non-empty list. */
  lemma AutoPicks(info: map<string, string>, a: AutoInput, g: string)
    requires AutoOutcome(info, a) == Ok(Some(g))
    ensures ClientCandidates(a.data) != [] && g == MostCommon(ClientCandidates(a.data)).guid
  {
  }

  /** The error `detect_device` exits with: the command's error output, or
      `Unknown` when there is none. */
  function DeviceNotFound(err: string): string {
    "Device not found. Error: " + (if err == "" then "Unknown" else err)
  }

  /** `BypassAutomation` of this variant: the transport mode, the parsed
      device information and the chosen GUID. */
  class BypassAutomation {
    var afcMode: Transport.AfcMode
    var deviceInfo: map<string, string>
    var guid: Option<string>

    constructor ()
      ensures afcMode == Transport.Unset && deviceInfo == map[] && guid == None
    {
      afcMode := Transport.Unset;
      deviceInfo := map[];
      guid := None;
    }

    /** `verify_dependencies`: nothing is required; the mode is `ifuse` when
        that binary is found. */
    method VerifyDependencies(hasIfuse: bool)
      modifies this`afcMode
      ensures afcMode == Transport.ModeFor(hasIfuse)
    {
      afcMode := Transport.ModeFor(hasIfuse);
    }

    /** `detect_device`: a failing `ideviceinfo` ends the program; otherwise
        its parsed output replaces the device information. */
    method DetectDevice(c: CommandResult) returns (r: Result<(), string>)
      modifies this`deviceInfo
      ensures c.code != 0 ==> r == Err(DeviceNotFound(Strip(c.err))) && deviceInfo == old(deviceInfo)
      ensures c.code == 0 ==> r == Ok(()) && deviceInfo == InfoOf(SplitLines(Strip(c.out)))
    {
      var info := DetectInfo(c, true, DeviceNotFound(Strip(c.err)));
      if info.Err? {
        return Err(info.error);
      }
      deviceInfo := info.value;
      return Ok(());
    }

    /** `get_guid_auto`: collect the logs, count the needle's hits, collect
        the candidates around every hit and pick the most common. */
    method GetGuidAuto(a: AutoInput) returns (r: Result<Option<string>, string>)
      ensures r == AutoOutcome(deviceInfo, a)
    {
      if UDID_KEY !in deviceInfo {
        return Err(MISSING_UDID);
      }
      if a.collectCode != 0 || !a.archiveExists {
        return Ok(None);
      }
      if !a.traceFound {
        return Ok(None);
      }
      var found, hits := CountHits(a.data);
      if !found {
        assert Anchors(a.data) == [];
        return Ok(None);
      }
      var candidates := CollectCandidates(a.data);
      if candidates == [] {
        return Ok(None);
      }
      var best := MostCommon(candidates);
      var total := |candidates|;
      if best.count >= 2 || total == 1 {
        return Ok(Some(best.guid));
      } else {
        return Ok(Some(best.guid));
      }
    }

    /** The GUID choice of `run`: option `1` tries the automatic search and
        falls back to manual entry when it finds nothing; any other choice
        goes to manual entry directly. `replies` are the lines typed at the
        manual prompt; running out of them ends the program. */
    method SelectGuid(choice: string, a: AutoInput, replies: seq<string>) returns (r: Result<string, string>)
      modifies this`guid
      ensures var found := AutoOutcome(deviceInfo, a);
        var auto := Strip(choice) == "1";
        var manual := if ManualEntry(replies, ManualGuid).Some? then Ok(ManualEntry(replies, ManualGuid).value) else Err(NO_GUID);
        (auto && found.Err? ==> r == Err(found.error))
        && (auto && found.Ok? && found.value.Some? ==> r == Ok(found.value.value))
        && (!auto || found == Ok(None) ==> r == manual)
        && guid == (if r.Ok? then Some(r.value) else if auto && found.Ok? then None else old(guid))
    {
      if Strip(choice) == "1" {
        var g := GetGuidAuto(a);
        if g.Err? {
          return Err(g.error);
        }
        guid := g.value;
        if guid.Some? {
          return Ok(guid.value);
        }
      }
      var entered, _ := GetGuidManual(replies, ManualGuid);
      if entered.None? {
        return Err(NO_GUID);
      }
      guid := entered;
      return Ok(entered.value);
    }

    /** The upload step of `run` on the object's transport mode, which a
        failed `ifuse` mount switches to `pymobiledevice3` for good. */
    method UploadPayload(mountListed: bool, ifuseCode: nat -> int, targetExists: bool, copyOk: bool,
                         pushCode: int)
      returns (r: Result<(), string>, ops: seq<Transport.DeviceOp>)
      modifies this`afcMode
      ensures afcMode == old(afcMode) || (old(afcMode) == Transport.Ifuse && afcMode == Transport.Pymobiledevice3)
      ensures afcMode == Transport.Ifuse <==>
        old(afcMode) == Transport.Ifuse
        && (mountListed || exists i :: 0 <= i < Transport.MOUNT_TRIES && ifuseCode(i) == 0)
      ensures afcMode == Transport.Ifuse ==>
        ops == (if targetExists then [Transport.MountedRemove(Transport.TARGET)] else [])
          + (if copyOk then [Transport.MountedCopy(Transport.TARGET)] else [])
        && (r.Ok? <==> copyOk)
      ensures afcMode != Transport.Ifuse ==>
        ops == [Transport.AfcRemove(Transport.TARGET), Transport.AfcPush(Transport.TARGET)]
        && (r.Ok? <==> pushCode == 0)
    {
      var mode;
      mode, r, ops := Transport.Upload(afcMode, mountListed, ifuseCode, targetExists, copyOk, pushCode);
      afcMode := mode;
    }
  }
}
