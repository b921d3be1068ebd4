# GUID extraction and control loops of the iOS activation scripts

This project models, in Dafny, the core of three Python variants of an iOS
activation tool: `Mac_GUI/activator.py`, `client/activator.py` and
`client/activator_macos.py`. It covers three parts.

- The GUID extraction engine. It scans a raw `tracev3` log buffer for the
  `BLDatabaseManager` anchor and cuts a clipped window around each anchor.
  It finds every 8-4-4-4-12 hex match in the window, upper-cases it and
  filters it. Each variant has its own filter:
  - an RFC 4122 version/variant check (section 4.1.3 for the version
    nibble, section 4.1.1 for the variant);
  - a case-insensitive pattern plus that check;
  - a "not trash" zero-count filter.
- Scoring. Candidates are grouped by GUID in `Counter` order, scored by
  count and by proximity and direction bonuses, and sorted stably in
  descending order. Selection is either the head of that sort or
  `most_common(1)`. The GUI variant adds confidence tiers and a
  confirmation gate.
- The control around extraction:
  - the retry-with-reboot loop;
  - the reboot/poll loop;
  - the `Key: Value` parser of `ideviceinfo` output;
  - the `ifuse` to `pymobiledevice3` transport fallback;
  - the rule that the downloaded payload is validated before anything on
    the device is changed.

Every external command is an oracle. The model receives exit codes, outputs,
file contents and typed replies as parameters, and it records the actions it
would take as values.

Modules, one file each:

| module | file | contents |
|---|---|---|
| `Wrappers` | `wrappers.dfy` | `Option`, `Result` |
| `Bytes` | `bytes.dfy` | bytes, ASCII decoding |
| `Text` | `text.dfy` | Python's `strip`, `upper`, `replace`, `split`, `splitlines` and `find` on `str` |
| `Search` | `search.dfy` | `bytes.find`, the non-overlapping scan, the one-step scan |
| `GuidShape` | `guid_shape.dfy` | the 8-4-4-4-12 shape on bytes and text, `UUID_PATTERN`, `re.finditer` of the GUID pattern, the manual-entry prompt |
| `Scoring` | `scoring.dfy` | `Counter`, scores, the stable descending sort, `max`/`most_common(1)` |
| `Extraction` | `extraction.dfy` | windows around anchors and the candidates found in them, shared by all three variants |
| `DeviceSession` | `device_session.dfy` | `ideviceinfo` parsing, `detect_device`'s command step, `reboot_device` |
| `RetryLoop` | `retry_loop.dfy` | the attempt/reboot/re-detect loop as a specification function |
| `Transport` | `transport.dfy` | `afc_mode`, `mount_afc`, the upload fallback |
| `MacGui` | `mac_gui.dfy` | `Mac_GUI/activator.py`, including the `BypassAutomation` class |
| `Client` | `client.dfy` | `client/activator.py`, including the `BypassAutomation` class |
| `ClientMacos` | `client_macos.dfy` | `client/activator_macos.py` |
| `Variants` | `variants.dfy` | where the three filters disagree |

Where the Python code mutates an object (`BypassAutomation`'s `afc_mode`,
`device_info`, `guid`, `attempt_count`), the model is a Dafny `class` whose
methods modify those fields. Where it loops (the `find` scans, the candidate
loops, the retry loops, the poll loop, the line parser, the prompt), the
model is a method with that loop. Each such method is proved equal to a
specification function, and the properties are lemmas about those
functions.

## Model

| member | source | states |
|---|---|---|
| `Bytes.Decode` | Mac_GUI/activator.py:377 | ASCII decoding keeps the length and maps each byte to the character with that code |
| `Bytes.LiteralDecode` | Mac_GUI/activator.py:377 | decoding the matched bytes as ASCII loses nothing: encoding the text again gives the same bytes |
| `Bytes.DecodeLiteral` | Mac_GUI/activator.py:343-346 | a `b'...'` literal of one-byte characters decodes back to its text |
| `Text.Strip` | client/activator.py:58 | the result neither starts nor ends with white space |
| `Text.StripTrimmed` | client/activator.py:58 | the result is the slice of the input between its leading and its trailing white space, with only white space around it |
| `Text.RemoveCharCounts` | client/activator.py:213 | `replace(c, '')` removes every `c`: the multiset of the result is the input's without `c`, and the length drops by the count of `c` |
| `Text.RemoveCharKeeps` | client/activator.py:213 | every character other than `c` survives the removal, and nothing else is left |
| `Text.Split` | Mac_GUI/activator.py:394 | `split('-')` gives dash-free parts whose join with `-` is the input |
| `Text.SplitJoin` | Mac_GUI/activator.py:394 | splitting the join of dash-free parts gives those parts back |
| `Text.SplitLines` | Mac_GUI/activator.py:284 | no line that `splitlines()` gives holds a line-break character; the three lemmas below pin the lines down completely |
| `Text.SplitLinesOne` | Mac_GUI/activator.py:284 | a string without a line break is one line, and the empty string has no line |
| `Text.SplitLinesBreak` | Mac_GUI/activator.py:284 | a break-free line ended by one break character (other than a `\r` that starts `\r\n`) is the first line, and the rest is split on its own |
| `Text.SplitLinesCrLf` | Mac_GUI/activator.py:284 | a break-free line ended by `\r\n` is the first line: the pair counts as one break |
| `Search.FindSpec` | Mac_GUI/activator.py:352 | `data.find(pat, pos)` is -1 exactly when no occurrence is at or after `pos`, and otherwise the first occurrence |
| `Search.NonOverlappingSound` | Mac_GUI/activator.py:349-356 | the non-overlapping scan records only occurrences, strictly increasing, each at least `len(pattern)` past the previous one |
| `Search.NonOverlappingCovers` | Mac_GUI/activator.py:349-356 | every occurrence the scan skips overlaps a recorded one |
| `Search.AllFromExact` | client/activator.py:172-189 | the one-step scan visits exactly the positions where the needle occurs |
| `Search.AllFromIncreasing` | client/activator.py:172-189 | the one-step scan visits them in strictly increasing order |
| `Search.AllFromCount` | client/activator.py:172-189 | the number of hits equals the number of occurrences |
| `GuidShape.MatchStartsSound` | Mac_GUI/activator.py:376 | `finditer` of the GUID pattern yields starts of GUID-shaped 36-byte slices inside the window, non-overlapping and increasing |
| `GuidShape.MatchStartsCovers` | Mac_GUI/activator.py:376 | the scan misses nothing: every GUID-shaped offset at or after the scan's start lies inside one of the matches it reports |
| `GuidShape.MatchTextIsUpperGuid` | Mac_GUI/activator.py:377 | the upper-cased text of a match is an upper-case GUID |
| `GuidShape.GroupsJoin` | Mac_GUI/activator.py:394-400 | the five groups of a GUID-shaped string, joined with `-`, give the string back |
| `GuidShape.SplitShaped` | Mac_GUI/activator.py:394-400 | a string with dashes exactly at offsets 8, 13, 18 and 23 splits into its five groups |
| `GuidShape.FiveGroups` | Mac_GUI/activator.py:394-400 | five parts of lengths 8, 4, 4, 4, 12 joined with `-` have the dashes at exactly those offsets |
| `GuidShape.ManualGuidIff` | client/activator.py:125-130 | a reply is accepted iff, stripped, it has the GUID shape in either case; the result is an upper-case GUID equal to the reply up to case |
| `GuidShape.GetGuidManual` | Mac_GUI/activator.py:331-335 | the prompt loop returns the first reply the check accepts, after rejecting every earlier one, or nothing when no reply passes |
| `Scoring.Distinct` | Mac_GUI/activator.py:442 | the `Counter` keys are the distinct GUIDs, each once |
| `Scoring.DistinctOrder` | Mac_GUI/activator.py:442 | the `Counter` keys come in order of first appearance |
| `Scoring.CountsCoverAll` | Mac_GUI/activator.py:442 | the counts of the keys add up to the number of candidates |
| `Scoring.SortDescSorted` | Mac_GUI/activator.py:465 | `sort(key=score, reverse=True)` gives a non-increasing permutation of its input |
| `Scoring.SortDescStable` | Mac_GUI/activator.py:465 | the sort keeps the input order among entries of equal score |
| `Scoring.SortDescSum` | Mac_GUI/activator.py:465 | the sort keeps the total count |
| `Scoring.FirstMaxIndex` | client/activator.py:239 | `most_common(1)` (a `max` over the counter) picks the first entry of maximal score |
| `Scoring.SortDescHead` | client/activator_macos.py:173-175 | the head of the stable descending sort is the first entry of maximal score |
| `Scoring.RankingFromKeys` | Mac_GUI/activator.py:444-463 | each ranked entry is a candidate GUID with its own score and count |
| `Scoring.RankingCovers` | Mac_GUI/activator.py:444-463 | every candidate GUID has an entry |
| `Scoring.RankingDistinct` | Mac_GUI/activator.py:444-463 | no GUID has two entries |
| `Scoring.RankingEntries` | Mac_GUI/activator.py:436-466 | exactly one entry per distinct GUID, with its score and count; the counts sum to the number of candidates; the entries are sorted non-increasing |
| `Scoring.RankingStable` | Mac_GUI/activator.py:465 | entries with equal score keep the order in which their GUIDs first appeared |
| `Scoring.RankingHead` | Mac_GUI/activator.py:542 | the first entry has the highest score, and every other GUID with that score appeared later |
| `Extraction.Window` | Mac_GUI/activator.py:370-372 | the window holds at most `before + after` bytes, each the byte of the buffer at the same offset, all within `before` bytes before the anchor and short of `after` bytes after it, and it misses no byte of the buffer in that range |
| `Extraction.ExtractAround` | Mac_GUI/activator.py:360-388 | the loop over one window returns exactly the accepted, upper-cased matches, each with its offset from the anchor |
| `Extraction.AcceptedExact` | Mac_GUI/activator.py:376-386 | a candidate is listed iff it comes from a scanned match that the filter takes |
| `Extraction.AcceptedSound` | Mac_GUI/activator.py:376-386 | every candidate is the filtered, upper-cased text of the window at its offset |
| `Extraction.AnchorCandidatesSound` | Mac_GUI/activator.py:371-386 | each candidate of an anchor lies wholly inside its clipped window, carries the offset from the anchor, is upper-case, and passes the filter |
| `Extraction.AllCandidatesSound` | Mac_GUI/activator.py:519-524 | each candidate of the whole buffer belongs in that sense to one of the anchors |
| `DeviceSession.SplitEntry` | Mac_GUI/activator.py:286 | `split(': ', 1)` splits at the first separator |
| `DeviceSession.ParseDeviceInfo` | Mac_GUI/activator.py:283-288 | the parser loop builds the dictionary of the `: ` lines with stripped keys and values, in order |
| `DeviceSession.InfoKeys` | Mac_GUI/activator.py:284-287 | a key is present iff some line holding `: ` carries it |
| `DeviceSession.InfoLastWins` | Mac_GUI/activator.py:287 | a later duplicate key overwrites an earlier one |
| `DeviceSession.DetectInfo` | client/activator_macos.py:99-107 | a failing `ideviceinfo` is an error, and otherwise the parsed output |
| `DeviceSession.RebootDevice` | client/activator_macos.py:75-97 | if both restart commands fail, the manual path returns True without polling; otherwise it polls at most 60 times, returns True on the first successful poll, and returns False only after 60 failures |
| `RetryLoop.RetryAttempts` | Mac_GUI/activator.py:568-594 | the loop makes at most `max_attempts` attempts and stops short only on a GUID or an error |
| `RetryLoop.RetryCount` | Mac_GUI/activator.py:572-573 | the trace holds one attempt event per attempt |
| `RetryLoop.RetryOrder` | Mac_GUI/activator.py:579-590 | attempts are numbered after the ones already made and no higher than the count; every attempt before the last is directly followed by a reboot and a re-detection; every reboot directly follows an attempt numbered below the limit |
| `RetryLoop.RetryFound` | Mac_GUI/activator.py:573-576 | a GUID returned is the result of the last attempt, with the device information current at it |
| `Transport.ModeFor` | Mac_GUI/activator.py:242-247 | the mode is `ifuse` exactly when the binary was found |
| `Transport.MountAfc` | Mac_GUI/activator.py:249-262 | outside `ifuse` mode, or when `mount` already lists the mount point, it succeeds without trying; otherwise it makes at most 5 `ifuse` tries and succeeds on the first that works |
| `Transport.FallbackOnce` | client/activator.py:381-384 | the mode changes at most once, only from `ifuse` to `pymobiledevice3`, and never back |
| `Transport.Upload` | client/activator.py:377-398 | a failed mount switches to `pymobiledevice3` for good; the upload then removes and copies through the mount, or removes and pushes over AFC, and succeeds iff the copy or push does |
| `MacGui.Tag` | Mac_GUI/activator.py:355 | each recorded position becomes one `('string', pattern, pos)` entry |
| `MacGui.ParseTracev3Structure` | Mac_GUI/activator.py:337-358 | the signatures are those of each pattern in list order, each from a non-overlapping `find` scan |
| `MacGui.ScanPatterns` | Mac_GUI/activator.py:349-356 | the loop over the patterns appends each pattern's signatures in order |
| `MacGui.ScanPattern` | Mac_GUI/activator.py:350-356 | one pattern's entries are its non-overlapping occurrences, in order, each tagged with the pattern |
| `MacGui.ScanPositions` | Mac_GUI/activator.py:350-356 | the `while True` find loop with `pos += len(pattern)` records exactly the positions of the non-overlapping scan |
| `MacGui.PositionsOfAppend` | Mac_GUI/activator.py:355 | the positions of one pattern in a concatenation are those of each part in turn |
| `MacGui.PositionsOfTag` | Mac_GUI/activator.py:355 | the signatures of one pattern carry no other pattern's positions |
| `MacGui.SignaturesSnoc` | Mac_GUI/activator.py:349-356 | one more pattern in the list adds only its own positions |
| `MacGui.SignaturesAbsent` | Mac_GUI/activator.py:349-356 | a pattern not in the list has no signature |
| `MacGui.SignaturesPositions` | Mac_GUI/activator.py:349-356 | with distinct patterns, the positions recorded for each pattern are exactly its non-overlapping scan |
| `MacGui.StructurePositions` | Mac_GUI/activator.py:349-356 | for each pattern, the recorded positions are its non-overlapping scan: occurrences, each at least `len(pattern)` past the previous one |
| `MacGui.ValidateGuidStructureIff` | Mac_GUI/activator.py:390-421 | the check accepts a string iff it is five dash-separated groups of lengths 8, 4, 4, 4, 12 over `0-9A-F`, group 3 starts with `4`, and group 4 starts with one of `8`, `9`, `A`, `B` |
| `MacGui.ValidatedIsUpperGuid` | Mac_GUI/activator.py:390-421 | an accepted string is an upper-case GUID with version 4 and variant `8`, `9`, `A` or `B` |
| `MacGui.UpperGuidValidates` | Mac_GUI/activator.py:390-421 | every such GUID is accepted |
| `MacGui.DashlessHex` | Mac_GUI/activator.py:390-421 | the string left after deleting the dashes is all upper-case hex digits iff every character of the input that is not a dash is one |
| `MacGui.ExtractGuidCandidates` | Mac_GUI/activator.py:360-388 | the candidates are the validated, upper-cased matches in `data[max(0, p - 512):min(len, p + 512)]`, each with offset `match start + start - p` |
| `MacGui.ExtractedNearAnchor` | Mac_GUI/activator.py:371-386 | each candidate is upper-case, passes the check, lies wholly inside the clipped window, and has its offset in `[-512, 512 - 36]` |
| `MacGui.CollectCandidates` | Mac_GUI/activator.py:519-524 | the signature loop extends the list with the candidates of each `BLDatabaseManager` signature, in order |
| `MacGui.BlCandidatesSnoc` | Mac_GUI/activator.py:519-524 | only `BLDatabaseManager` signatures add candidates |
| `MacGui.GuidCandidatesSound` | Mac_GUI/activator.py:515-524 | every candidate of the buffer is an upper-case, valid GUID near a non-overlapping `BLDatabaseManager` occurrence |
| `MacGui.AnalyzeGuidConfidence` | Mac_GUI/activator.py:436-466 | None iff there are no candidates; otherwise the stable descending ranking with `score = 10*count + 5*#{abs(p) < 100} + 3*#{p < 0}` |
| `MacGui.ConfirmReplies` | Mac_GUI/activator.py:468-481 | confirmation is granted in auto mode, and otherwise iff the stripped, lower-cased reply is `y` or `yes` |
| `MacGui.EnhancedFound` | Mac_GUI/activator.py:483-566 | a GUID returned by an attempt comes from a successful collection, is a valid upper-case candidate of the trace, scores highest, and appeared first among those with its score |
| `MacGui.EnhancedGate` | Mac_GUI/activator.py:544-561 | a best score of 30 or more is returned without confirmation; a lower one is returned iff confirmed and gives None otherwise; auto mode always returns it |
| `MacGui.BypassAutomation.constructor` | Mac_GUI/activator.py:57-72 | no mode, no device information, no GUID, no attempts, at most 10 attempts, the auto-confirm flag as given |
| `MacGui.BypassAutomation.VerifyDependencies` | Mac_GUI/activator.py:229-247 | the first missing binary of `ideviceinfo`, `idevice_id` is an error that leaves the mode alone; otherwise the mode is `ifuse` iff that binary exists |
| `MacGui.BypassAutomation.DetectDevice` | Mac_GUI/activator.py:276-288 | a failing command raises "No device detected" and keeps the old information; otherwise the information is the parsed output; either way one detection is recorded |
| `MacGui.BypassAutomation.GetGuidEnhanced` | Mac_GUI/activator.py:483-566 | increments the attempt counter, records the numbered attempt, and returns the attempt's outcome on the current device information |
| `MacGui.BypassAutomation.RebootDevice` | Mac_GUI/activator.py:196-227 | the reboot is recorded, and it reports success iff both restart commands failed (the manual path) or one of the 60 polls found the device |
| `MacGui.BypassAutomation.RetryPass` | Mac_GUI/activator.py:573-590 | one attempt and, when it failed and was not the last, the reboot and re-detection; it advances the retry specification by exactly that pass |
| `MacGui.BypassAutomation.GetGuidAutoWithRetry` | Mac_GUI/activator.py:568-594 | resets the counter; the result, final device information, attempt count and recorded events are those of the retry specification |
| `MacGui.BypassAutomation.SelectGuid` | Mac_GUI/activator.py:656-666 | option `1` runs the retry loop and falls back to manual entry when it finds nothing; any other choice goes to manual entry; `self.guid` is set accordingly |
| `MacGui.BypassAutomation.UploadPayload` | Mac_GUI/activator.py:735-756 | the mode only ever changes from `ifuse` to `pymobiledevice3`, and it stays `ifuse` iff the mount is listed or one of 5 `ifuse` runs works; in `ifuse` mode the upload removes an existing target and copies through the mount, succeeding iff the copy does; otherwise it runs `afc rm` and `afc push`, succeeding iff the push does |
| `Client.NotTrashIff` | client/activator.py:213-214 | the filter accepts iff the counts of `0` and `-` plus 8 do not exceed the length |
| `Client.CountScan` | client/activator.py:172-186 | the loop of `find` followed by `pos += 1` counts one hit per position of the one-step scan, and sets its flag iff there is a hit |
| `Client.CountHits` | client/activator.py:172-189 | the first scan's `hit_count` is the number of anchors of the one-step scan (and so, by `Search.AllFromCount`, of positions where the needle occurs), and `found_bl` holds iff it is positive |
| `Client.CollectCandidates` | client/activator.py:198-223 | the second scan collects, anchor by anchor, the filtered matches of `data[max(0, pos - 1024):min(len, pos + len(needle) + 1024)]` |
| `Client.ClientCandidatesSound` | client/activator.py:205-215 | every candidate is an upper-case match the filter takes, lying wholly inside the window of a position where the needle occurs |
| `Client.CandidateNear` | client/activator.py:205-215 | every candidate GUID is an upper-case GUID the filter takes, found near an occurrence of the needle |
| `Client.MostCommonMaximal` | client/activator.py:230-239 | the GUID chosen is a candidate, no GUID is more frequent, and among equally frequent ones it appeared first |
| `Client.AutoNone` | client/activator.py:133-228 | no GUID exactly when collection failed, the trace file is missing, the needle is absent, or no match survives the filter; a buffer without the needle gives none |
| `Client.AutoFound` | client/activator.py:239-246 | a GUID found is a most frequent upper-case candidate the filter takes, returned in both the confident and the low-confidence branch |
| `Client.BypassAutomation.constructor` | client/activator.py:24-36 | no mode, no device information, no GUID |
| `Client.BypassAutomation.VerifyDependencies` | client/activator.py:64-70 | the mode is `ifuse` iff that binary exists |
| `Client.BypassAutomation.DetectDevice` | client/activator.py:99-111 | a failing command ends the program with `Device not found. Error: ` and its stripped error or `Unknown`, keeping the old information; otherwise the information is the parsed stripped output |
| `Client.BypassAutomation.GetGuidAuto` | client/activator.py:133-250 | the result is the automatic search's outcome on the current device information |
| `Client.BypassAutomation.SelectGuid` | client/activator.py:291-301 | option `1` tries the automatic search and falls back to manual entry when it finds nothing; any other choice goes to manual entry |
| `Client.BypassAutomation.UploadPayload` | client/activator.py:377-398 | the mode only ever changes from `ifuse` to `pymobiledevice3`, and it stays `ifuse` iff the mount is listed or one of 5 `ifuse` runs works; in `ifuse` mode the upload removes an existing target and copies through the mount, succeeding iff the copy does; otherwise it runs `afc rm` and `afc push`, succeeding iff the push does |
| `ClientMacos.PatternGroups` | client/activator_macos.py:160-162 | a string that `UUID_PATTERN` matches splits into five groups, the third starting at offset 14 and the fourth at offset 19 |
| `ClientMacos.ValidateGuidIff` | client/activator_macos.py:157-163 | `validate_guid` is true iff `UUID_PATTERN` matches, offset 14 is `4`, and offset 19 is an upper-case `8`, `9`, `A` or `B` |
| `ClientMacos.LowerVariantRejected` | client/activator_macos.py:157-163 | a version-4 GUID with variant `a` or `b` fails the check, and its upper-cased form passes |
| `ClientMacos.ParseTracev3Guids` | client/activator_macos.py:142-155 | the nested loops collect, per non-overlapping anchor, the upper-cased matches of `data[max(0, pos - 512):pos + 512]` that pass the check |
| `ClientMacos.MacCandidatesSound` | client/activator_macos.py:147-154 | each candidate belongs to an anchor occurrence, passes the check, lies wholly inside the window, and has `rel_pos` in `[max(-512, -pos), 512 - 36]` |
| `ClientMacos.CandidateNeedsAnchor` | client/activator_macos.py:147 | a buffer without `BLDatabaseManager` has no anchor and no candidate |
| `ClientMacos.AnalyzeGuidsBest` | client/activator_macos.py:165-175 | None iff there are no candidates; otherwise a candidate GUID maximising `10*count + 2*#{abs(p) < 32}`, the first to appear among those tied |
| `ClientMacos.CollectAndExtractGuid` | client/activator_macos.py:177-208 | an empty UDID raises "Failed to get UDID"; a failed collection or missing `tracev3` gives None; otherwise the analysed candidates of the file |
| `ClientMacos.CollectFound` | client/activator_macos.py:177-208 | a GUID found is a valid upper-case candidate of best score; a buffer without the anchor gives None |
| `ClientMacos.DetectDevice` | client/activator_macos.py:99-112 | a failing `ideviceinfo` raises "Device not found: " with its unstripped error or `unknown`; otherwise the parsed output |
| `ClientMacos.Reboot` | client/activator_macos.py:75-97 | `reboot_device` reports success iff both restart commands failed (the manual path) or one of the 60 polls found the device |
| `ClientMacos.AutoPass` | client/activator_macos.py:211-219 | one attempt and, when it found nothing and was not the last, the reboot and re-detection; it advances the retry specification by exactly that pass |
| `ClientMacos.GetGuidAuto` | client/activator_macos.py:210-221 | the result and trace are those of the retry specification, ending with "GUID auto-detection failed after all attempts" when no attempt succeeds |
| `ClientMacos.AutoBounded` | client/activator_macos.py:210-221 | at most `max_attempts` extractions, one attempt event each; the exhaustion error only after all of them; every reboot follows an attempt before the last |
| `ClientMacos.MacManualIff` | client/activator_macos.py:223-230 | a reply is accepted iff, stripped, it has the GUID shape with version `4` and variant in `89ABab`; the result is the upper-cased reply |
| `ClientMacos.PreLoadLocal` | client/activator_macos.py:277-281 | the pre-downloads touch only local files, download every stage, and delete a stage's file iff its download succeeded |
| `ClientMacos.Deploy` | client/activator_macos.py:259-312 | the request, the reply checks, the pre-download loop, the final download, the database check and the upload, with the errors and actions of each |
| `ClientMacos.ValidateBeforeUpload` | client/activator_macos.py:288-312 | nothing on the device changes unless the database has an `asset` table with a row; a failed check deletes the local file and raises `Invalid DB` with no device change; success iff every step succeeds, ending with the three removals, the push and the local deletion |
| `ClientMacos.FirstMissing` | client/activator_macos.py:239-241 | the dependency loop stops at the first missing tool |
| `ClientMacos.ChooseGuid` | client/activator_macos.py:248-256 | a non-empty preset GUID is used as given; otherwise the automatic search in auto mode or on choice `1`, else manual entry |
| `ClientMacos.Run` | client/activator_macos.py:234-312 | a missing tool or a failed detection ends the run before any action; past them, a failed GUID step ends it with that error and no action, and a GUID leads to exactly the deployment of `ClientMacos.Deploy` on the parsed device information; a device change only follows a valid payload; success needs a valid payload and a successful push |
| `Variants.ShapeDashes` | client/activator.py:213 | a GUID-shaped match has exactly four dashes |
| `Variants.NotTrashOnGuids` | client/activator.py:213-214 | on GUID-shaped matches, the zero-count filter accepts iff at most 24 of the 32 digits are `0` |
| `Variants.VersionBlind` | client/activator.py:213-214 | the zero-count filter passes GUIDs of any version that both version checks refuse |
| `Variants.ZeroHeavy` | client/activator_macos.py:157-163 | a valid version-4 GUID with more than 24 zeros passes both version checks and fails the zero-count filter |
| `Variants.OnesDisagree` | client/activator.py:213-214 | some GUID passes only the zero-count filter |
| `Variants.ZerosDisagree` | client/activator_macos.py:157-163 | some GUID passes only the version checks |

Helper lemmas, one-step unfoldings and constant facts that the proofs above
use and that state nothing further: `Search.AllFromStep` and
`Search.AllFromLength` (one iteration of the one-step scan, for
`Client.CollectCandidates`, `Client.CountScan` and `Search.AllFromCount`),
`GuidShape.ShortWindowNoMatch` (for `Extraction.AnchorCandidatesSound`),
`RetryLoop.OrderCons` (for `RetryLoop.RetryOrder`), `RetryLoop.RetryStops`,
`RetryLoop.RetryExhausted` and `RetryLoop.RetryRedetects` (one pass of the
retry specification, for the two pass methods), and
`MacGui.PatternsWellFormed` (for `MacGui.ParseTracev3Structure`,
`MacGui.StructurePositions` and the candidate collection).

## Left out

- Logging, ANSI colours, `print`, `os.system('clear')` and the progress messages are not modelled. This includes the offset that `client/activator.py` logs with `window.find`, because it does not affect the result.
- `time.sleep`, command timeouts and the deadline loop of `wait_for_file` are not modelled. A timed-out command is just another exit code.
- External commands are oracles. Parameters stand for `ideviceinfo`, `idevice_id`, `pymobiledevice3`, `idevicediagnostics`, `ifuse`, `mount`, `curl`, `find_binary`/`shutil.which` and the file-existence tests.
- JSON parsing of the server reply is an oracle. `ClientMacos.ServerReply` gives a malformed reply with its reason, a reply without `success`, or the three links.
- `sqlite3` is an oracle. The model receives an error of the library itself, whether the `asset` table exists, and its row count.
- The regex engine is not modelled. `re.finditer` of the fixed-length GUID pattern is a left-to-right scan that takes a 36-byte shaped slice and skips past it, and `UUID_PATTERN.match` is an explicit predicate. That predicate includes `$` matching before one final newline.
- `upper()` is modelled on ASCII letters only. The inputs that reach it are hex matches, or replies that must then pass an ASCII pattern. Python's Unicode case mapping could turn a non-ASCII character into ASCII hex digits (for example the ligature `ﬀ` becomes `FF`). The model does not capture that.
- `GuidShape.GetGuidManual`: the prompt loops are modelled on a finite list of replies. Running out of replies gives the error `no valid GUID entered`, where the Python program would wait for more input or fail with `EOFError`.
- `get_context_string` and the `size_mb` arithmetic are diagnostic only. Their values are logged, never used.
- `Mac_GUI/main.py` is not part of this model. It is a PyQt window with a worker thread.
- The URL request of the GUI and `client/activator.py` variants (`get_all_urls_from_server`), their stage pre-loads, their final download and their database check are left out. So are the later stages of all three `run` functions: the reboots, the `iTunesMetadata.plist` copies, and the cleanup of WAL/SHM files. The payload-before-device rule is modelled in full for `client/activator_macos.py`, in `ClientMacos.Deploy` and `ClientMacos.ValidateBeforeUpload`. For the other two variants only their upload step is modelled, in the `UploadPayload` methods.
- The results of the reboots in the retry loops are ignored, as in the source, where the result is only logged. The poll loop itself is modelled in `DeviceSession.RebootDevice`.
- `unmount_afc`, `_cleanup`, `atexit`, the removal of log archives and temporary files, and `os.makedirs` are not modelled.
- `MacGui.ScanPattern`: the inner loop, `MacGui.ScanPositions`, collects the hit positions, and the method tags them with the pattern afterwards. The Python loop appends each tuple as it finds it. The resulting list is the same.
- `Client` candidates carry their offsets, but `client/activator.py` never uses them in its choice.
- Determinism of extraction is not a lemma of its own. `ClientMacos.CollectOutcome` is a function of its input, so two extractions of one buffer give one GUID by construction.
- `ClientMacos.GetGuidAuto` parses the device information after each reboot. Its value is unused, because that variant's `detect_device` returns it and the caller discards it.
