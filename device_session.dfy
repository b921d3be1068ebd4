/** The device-facing helpers the three activators share: the
    `Key: Value` parser of `ideviceinfo` output and the reboot-and-poll loop.
    Every external command is an oracle: the model receives its exit code and
    output as parameters. */
module DeviceSession {
  import opened Wrappers
  import opened Search
  import opened Text

  /** What one external command gave back. */
  datatype CommandResult = CommandResult(code: int, out: string, err: string)

  const SEP: string := ": "

  /** The key of the device identifier in the parsed information. */
  const UDID_KEY: string := "UniqueDeviceID"

  /** The message of the `KeyError` a missing device identifier raises:
      `str(e)` is the quoted key alone. */
  const MISSING_UDID: string := "'UniqueDeviceID'"

  /** `": " in line`. */
  predicate IsEntry(line: string) {
    IndexOf(line, SEP) >= 0
  }

  /** `line.split(": ", 1)`: the text before the first separator and the
      text after it. */
  function SplitEntry(line: string): (kv: (string, string))
    requires IsEntry(line)
    ensures line == kv.0 + SEP + kv.1
    ensures forall i :: 0 <= i < |kv.0| ==> !OccursAt(line, SEP, i)
  {
    FindSpec(line, SEP, 0);
    var i := IndexOf(line, SEP);
    assert line == line[..i] + line[i..i + 2] + line[i + 2..];
    (line[..i], line[i + 2..])
  }

  function KeyOf(line: string): string
    requires IsEntry(line)
  {
    Strip(SplitEntry(line).0)
  }

  function ValueOf(line: string): string
    requires IsEntry(line)
  {
    Strip(SplitEntry(line).1)
  }

  /** The dictionary the parser builds from `lines`, in order. */
  function InfoOf(lines: seq<string>): map<string, string> {
    if lines == [] then map[]
    else
      var m := InfoOf(lines[..|lines| - 1]);
      var line := lines[|lines| - 1];
      if IsEntry(line) then m[KeyOf(line) := ValueOf(line)] else m
  }

  /** One more line for the parser: a separator line sets its stripped key
      to its stripped value, and any other line changes nothing. */
  lemma InfoOfSnoc(lines: seq<string>, k: nat)
    requires k < |lines|
    ensures IsEntry(lines[k]) ==> InfoOf(lines[..k + 1]) == InfoOf(lines[..k])[KeyOf(lines[k]) := ValueOf(lines[k])]
    ensures !IsEntry(lines[k]) ==> InfoOf(lines[..k + 1]) == InfoOf(lines[..k])
  {
    var pre := lines[..k + 1];
    assert pre[..|pre| - 1] == lines[..k];
    assert pre[|pre| - 1] == lines[k];
  }

  /** The parsing loop of `detect_device`: every line holding `": "` is split
      at its first separator, key and value stripped, and later lines
      overwrite earlier ones. */
  method ParseDeviceInfo(out: string) returns (info: map<string, string>)
    ensures info == InfoOf(SplitLines(out))
  {
    var lines := SplitLines(out);
    info := map[];
    var k := 0;
    while k < |lines|
      invariant 0 <= k <= |lines|
      invariant info == InfoOf(lines[..k])
    {
      var line := lines[k];
      InfoOfSnoc(lines, k);
      if IndexOf(line, SEP) >= 0 {
        var i := IndexOf(line, SEP);
        assert Strip(line[..i]) == KeyOf(line) && Strip(line[i + 2..]) == ValueOf(line);
        info := info[Strip(line[..i]) := Strip(line[i + 2..])];
      }
      k := k + 1;
    }
    assert lines[..k] == lines;
  }

  /** A key is present exactly when some separator line carries it. */
  lemma {:induction false} InfoKeys(lines: seq<string>, key: string)
    ensures key in InfoOf(lines) <==>
      exists j :: 0 <= j < |lines| && IsEntry(lines[j]) && KeyOf(lines[j]) == key
  {
    if lines != [] {
      var init := lines[..|lines| - 1];
      InfoKeys(init, key);
      if key in InfoOf(lines) && key !in InfoOf(init) {
        assert lines[|lines| - 1] == lines[|lines| - 1];
      }
      if exists j :: 0 <= j < |lines| && IsEntry(lines[j]) && KeyOf(lines[j]) == key {
        var j :| 0 <= j < |lines| && IsEntry(lines[j]) && KeyOf(lines[j]) == key;
        if j < |lines| - 1 {
          assert init[j] == lines[j];
        }
      }
    }
  }

  /** A last line carrying `key` sets it. */
  lemma InfoLastSets(lines: seq<string>, key: string)
    requires lines != [] && IsEntry(lines[|lines| - 1]) && KeyOf(lines[|lines| - 1]) == key
    ensures key in InfoOf(lines) && InfoOf(lines)[key] == ValueOf(lines[|lines| - 1])
  {
  }

  /** A last line not carrying `key` keeps what the earlier lines stored under it. */
  lemma InfoLastKeeps(lines: seq<string>, key: string, v: string)
    requires lines != [] && key in InfoOf(lines[..|lines| - 1]) && InfoOf(lines[..|lines| - 1])[key] == v
    requires IsEntry(lines[|lines| - 1]) ==> KeyOf(lines[|lines| - 1]) != key
    ensures key in InfoOf(lines) && InfoOf(lines)[key] == v
  {
  }

  /** Dropping the last line keeps the line at `j` and what is said about
      the lines after it. */
  lemma InfoLaterInit(lines: seq<string>, j: nat, key: string)
    requires j < |lines| - 1 && IsEntry(lines[j]) && KeyOf(lines[j]) == key
    requires forall l :: j < l < |lines| && IsEntry(lines[l]) ==> KeyOf(lines[l]) != key
    ensures var init := lines[..|lines| - 1];
      IsEntry(init[j]) && KeyOf(init[j]) == key
      && (forall l :: j < l < |init| && IsEntry(init[l]) ==> KeyOf(init[l]) != key)
      && (IsEntry(lines[|lines| - 1]) ==> KeyOf(lines[|lines| - 1]) != key)
  {
    var init := lines[..|lines| - 1];
    assert init[j] == lines[j];
    forall l | j < l < |init| && IsEntry(init[l])
      ensures KeyOf(init[l]) != key
    {
      assert init[l] == lines[l];
    }
  }

  /** The value stored under a key is the one of the last line carrying it. */
  lemma {:induction false} InfoLastWins(lines: seq<string>, j: nat, key: string)
    requires j < |lines| && IsEntry(lines[j]) && KeyOf(lines[j]) == key
    requires forall l :: j < l < |lines| && IsEntry(lines[l]) ==> KeyOf(lines[l]) != key
    ensures key in InfoOf(lines) && InfoOf(lines)[key] == ValueOf(lines[j])
  {
    var n := |lines| - 1;
    if j == n {
      InfoLastSets(lines, key);
    } else {
      var init := lines[..n];
      InfoLaterInit(lines, j, key);
      InfoLastWins(init, j, key);
      InfoLastKeeps(lines, key, ValueOf(lines[j]));
    }
  }

  /** `detect_device`'s command step: a nonzero exit code is an error, and
      otherwise the parsed output. `strip` says whether the output was
      stripped before parsing (one of the activators strips every output). */
  method DetectInfo(c: CommandResult, strip: bool, error: string)
    returns (r: Result<map<string, string>, string>)
    ensures c.code != 0 ==> r == Err(error)
    ensures c.code == 0 ==> r == Ok(InfoOf(SplitLines(if strip then Strip(c.out) else c.out)))
  {
    if c.code != 0 {
      return Err(error);
    }
    var info := ParseDeviceInfo(if strip then Strip(c.out) else c.out);
    return Ok(info);
  }

  /** What one reboot's commands give back: the exit codes of the two
      restart commands and of each `ideviceinfo` poll. */
  datatype RebootInput = RebootInput(restartCode: int, diagnosticsCode: int, pollCode: nat -> int)

  /** `reboot_device` waits at most 60 polls of five seconds. */
  const POLL_LIMIT: nat := 60

  /** `reboot_device` reports success: both restart commands failed and the
      user was asked to reboot by hand, or one of the 60 polls found the
      device. */
  ghost predicate Reconnects(restartCode: int, diagnosticsCode: int, pollCode: nat -> int) {
    (restartCode != 0 && diagnosticsCode != 0) || exists i :: 0 <= i < POLL_LIMIT && pollCode(i) == 0
  }

  /** `reboot_device`: `pymobiledevice3 restart`, then, if it failed,
      `idevicediagnostics restart`; when both fail the user reboots by hand
      and the function reports success. Otherwise `ideviceinfo` is polled
      until it succeeds, at most 60 times. `pollCode(i)` is the exit code of
      the `i`-th poll; `polls` is the number of polls made. */
  method RebootDevice(restartCode: int, diagnosticsCode: int, pollCode: nat -> int)
    returns (ok: bool, polls: nat)
    ensures restartCode != 0 && diagnosticsCode != 0 ==> ok && polls == 0
    ensures restartCode == 0 || diagnosticsCode == 0 ==>
      polls <= POLL_LIMIT
      && (forall i :: 0 <= i < polls - 1 ==> pollCode(i) != 0)
      && (ok <==> exists i :: 0 <= i < POLL_LIMIT && pollCode(i) == 0)
      && (ok ==> 0 < polls && pollCode(polls - 1) == 0)
      && (!ok ==> polls == POLL_LIMIT)
  {
    if restartCode != 0 && diagnosticsCode != 0 {
      return true, 0;
    }
    ok, polls := false, 0;
    while polls < POLL_LIMIT
      invariant polls <= POLL_LIMIT
      invariant forall i :: 0 <= i < polls ==> pollCode(i) != 0
    {
      polls := polls + 1;
      if pollCode(polls - 1) == 0 {
        ok := true;
        return;
      }
    }
  }
}
