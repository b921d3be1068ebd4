/** The AFC transport: how files reach the device, through an `ifuse` mount
    or through `pymobiledevice3 afc` commands, the bounded mount retry, and
    the one-way fallback from `ifuse` to `pymobiledevice3` at upload time. */
module Transport {
  import opened Wrappers

  /** `afc_mode`: `None` until the dependencies are checked. */
  datatype AfcMode = Unset | Ifuse | Pymobiledevice3

  /** A change made on the device. */
  datatype DeviceOp =
    | MountedRemove(path: string)
    | MountedCopy(path: string)
    | AfcRemove(path: string)
    | AfcPush(path: string)

  const MOUNT_TRIES: nat := 5
  const TARGET: string := "/Downloads/downloads.28.sqlitedb"

  /** `verify_dependencies`: `ifuse` mode when the binary is found. */
  function ModeFor(hasIfuse: bool): (m: AfcMode)
    ensures m != Unset
    ensures m == Ifuse <==> hasIfuse
  {
    if hasIfuse then Ifuse else Pymobiledevice3
  }

  /** `mount_afc`: nothing to do outside `ifuse` mode or when `mount` already
      lists the mount point; otherwise up to five `ifuse` runs, stopping at
      the first that exits with 0. `ifuseCode(i)` is the exit code of the
      `i`-th run; `tries` is the number of runs made. */
  method MountAfc(mode: AfcMode, mountListed: bool, ifuseCode: nat -> int)
    returns (ok: bool, tries: nat)
    ensures mode != Ifuse || mountListed ==> ok && tries == 0
    ensures mode == Ifuse && !mountListed ==>
      tries <= MOUNT_TRIES
      && (forall i :: 0 <= i < tries - 1 ==> ifuseCode(i) != 0)
      && (ok <==> exists i :: 0 <= i < MOUNT_TRIES && ifuseCode(i) == 0)
      && (ok ==> 0 < tries && ifuseCode(tries - 1) == 0)
      && (!ok ==> tries == MOUNT_TRIES)
  {
    if mode != Ifuse || mountListed {
      return true, 0;
    }
    ok, tries := false, 0;
    while tries < MOUNT_TRIES
      invariant tries <= MOUNT_TRIES
      invariant forall i :: 0 <= i < tries ==> ifuseCode(i) != 0
    {
      tries := tries + 1;
      if ifuseCode(tries - 1) == 0 {
        ok := true;
        return;
      }
    }
  }

  /** The mode after the upload step's mount: a failed mount in `ifuse` mode
      switches to `pymobiledevice3`; nothing else changes the mode. */
  function AfterMount(mode: AfcMode, mounted: bool): AfcMode {
    if mode == Ifuse && !mounted then Pymobiledevice3 else mode
  }

  /** The mode after a series of upload mounts with the given outcomes. */
  function ModeAfter(mode: AfcMode, outcomes: seq<bool>): AfcMode
    decreases |outcomes|
  {
    if outcomes == [] then mode else ModeAfter(AfterMount(mode, outcomes[0]), outcomes[1..])
  }

  /** How many of those mounts changed the mode. */
  function Switches(mode: AfcMode, outcomes: seq<bool>): nat
    decreases |outcomes|
  {
    if outcomes == [] then 0
    else
      var next := AfterMount(mode, outcomes[0]);
      (if next != mode then 1 else 0) + Switches(next, outcomes[1..])
  }

  /** The fallback is one-way: the mode changes at most once, only from
      `ifuse` to `pymobiledevice3`, and stays `ifuse` only while every mount
      succeeds. */
  lemma {:induction false} FallbackOnce(mode: AfcMode, outcomes: seq<bool>)
    ensures Switches(mode, outcomes) <= 1
    ensures ModeAfter(mode, outcomes) == mode
      || (mode == Ifuse && ModeAfter(mode, outcomes) == Pymobiledevice3)
    ensures ModeAfter(mode, outcomes) == Ifuse ==>
      mode == Ifuse && forall i :: 0 <= i < |outcomes| ==> outcomes[i]
    ensures mode != Ifuse ==> Switches(mode, outcomes) == 0
    decreases |outcomes|
  {
    if outcomes != [] {
      var next := AfterMount(mode, outcomes[0]);
      FallbackOnce(next, outcomes[1..]);
      if ModeAfter(mode, outcomes) == Ifuse {
        forall i | 0 <= i < |outcomes|
          ensures outcomes[i]
        {
          if i > 0 { assert outcomes[i] == outcomes[1..][i - 1]; }
        }
      }
    }
  }

  /** The upload step of `run`: mount (in `ifuse` mode), fall back to
      `pymobiledevice3` if the mount fails, then either replace the file
      through the mount point or remove it and push it with
      `pymobiledevice3 afc`. `targetExists` says whether the file is already
      under the mount point, `copyOk` whether the local copy onto the
      mount point succeeded, `pushCode` is the exit code of the push. A
      failure is the error that ends the program. */
  method Upload(mode: AfcMode, mountListed: bool, ifuseCode: nat -> int, targetExists: bool,
                copyOk: bool, pushCode: int)
    returns (newMode: AfcMode, r: Result<(), string>, ops: seq<DeviceOp>)
    ensures newMode == mode || (mode == Ifuse && newMode == Pymobiledevice3)
    ensures mode != Ifuse ==> newMode == mode
    ensures newMode == Ifuse <==>
      mode == Ifuse && (mountListed || exists i :: 0 <= i < MOUNT_TRIES && ifuseCode(i) == 0)
    ensures newMode == Ifuse ==>
      ops == (if targetExists then [MountedRemove(TARGET)] else [])
        + (if copyOk then [MountedCopy(TARGET)] else [])
      && (r.Ok? <==> copyOk)
    ensures newMode != Ifuse ==>
      ops == [AfcRemove(TARGET), AfcPush(TARGET)] && (r.Ok? <==> pushCode == 0)
  {
    newMode := mode;
    if mode == Ifuse {
      var mounted, _ := MountAfc(mode, mountListed, ifuseCode);
      if !mounted {
        newMode := Pymobiledevice3;
      }
    }
    if newMode == Ifuse {
      ops := if targetExists then [MountedRemove(TARGET)] else [];
      if !copyOk {
        return newMode, Err("copy to the mount point failed"), ops;
      }
      ops := ops + [MountedCopy(TARGET)];
      r := Ok(());
    } else {
      ops := [AfcRemove(TARGET), AfcPush(TARGET)];
      if pushCode != 0 {
        r := Err("AFC upload failed");
      } else {
        r := Ok(());
      }
    }
  }
}
