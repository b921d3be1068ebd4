/** The retry-with-reboot loop of the activators, as a specification: each
    attempt either ends the loop (a GUID or an error) or, unless it was the
    last, is followed by a reboot and a re-detection whose `ideviceinfo`
    output becomes the device information of the next attempt. A
    re-detection that fails ends the loop with the variant's error `lost`.
    The attempts themselves are a parameter. */
module RetryLoop {
  import opened Wrappers
  import opened Text
  import opened DeviceSession

  /** What the retry loop records: an attempt with its number, a reboot, a
      re-detection. */
  datatype Event = Attempted(n: nat) | Rebooted | Detected

  /** The outcome of the retry loop: its result, the device information it
      leaves, the attempt counter, and the events in order. */
  datatype RetryRun = RetryRun(result: Result<Option<string>, string>, info: map<string, string>,
                               attempts: nat, trace: seq<Event>)

  /** The outcome of each attempt, from the device information current at
      it and its number. */
  type Outcomes = (map<string, string>, nat) -> Result<Option<string>, string>

  /** The retry loop from `done` attempts on, `outcome` giving each
      attempt's result and `detect(n)` the `ideviceinfo` result after the
      `n`-th reboot. */
  function Retry(info: map<string, string>, done: nat, max: nat, outcome: Outcomes,
                 lost: CommandResult -> string, detect: nat -> CommandResult): RetryRun
    decreases max - done
  {
    if done >= max then RetryRun(Ok(None), info, done, [])
    else
      var n := done + 1;
      var r := outcome(info, n);
      if r.Err? || r.value.Some? then RetryRun(r, info, n, [Attempted(n)])
      else if n >= max then RetryRun(Ok(None), info, n, [Attempted(n)])
      else if detect(n).code != 0 then RetryRun(Err(lost(detect(n))), info, n, [Attempted(n), Rebooted, Detected])
      else
        var rest := Retry(InfoOf(SplitLines(detect(n).out)), n, max, outcome, lost, detect);
        rest.(trace := [Attempted(n), Rebooted, Detected] + rest.trace)
  }

  /** The number of attempts in a trace. */
  function AttemptsIn(trace: seq<Event>): nat {
    if trace == [] then 0 else (if trace[0].Attempted? then 1 else 0) + AttemptsIn(trace[1..])
  }

  /** The loop is bounded, and it stops short of the limit only on a GUID
      or an error. */
  lemma {:induction false} RetryAttempts(info: map<string, string>, done: nat, max: nat, outcome: Outcomes,
                                         lost: CommandResult -> string, detect: nat -> CommandResult)
    requires done <= max
    ensures var r := Retry(info, done, max, outcome, lost, detect);
      done <= r.attempts <= max && (done < max ==> done < r.attempts)
      && (r.result == Ok(None) ==> r.attempts == max)
    decreases max - done
  {
    if done < max {
      var n := done + 1;
      var r := outcome(info, n);
      if r.Ok? && r.value.None? && n < max && detect(n).code == 0 {
        RetryAttempts(InfoOf(SplitLines(detect(n).out)), n, max, outcome, lost, detect);
      }
    }
  }

  /** The trace holds one `Attempted` event per attempt made. */
  lemma {:induction false} RetryCount(info: map<string, string>, done: nat, max: nat, outcome: Outcomes,
                                      lost: CommandResult -> string, detect: nat -> CommandResult)
    requires done <= max
    ensures var r := Retry(info, done, max, outcome, lost, detect);
      done <= r.attempts && AttemptsIn(r.trace) == r.attempts - done
    decreases max - done
  {
    if done < max {
      var n := done + 1;
      var r := outcome(info, n);
      if r.Err? || r.value.Some? || n >= max {
        assert AttemptsIn([Attempted(n)]) == 1 + AttemptsIn([]);
      } else if detect(n).code != 0 {
        var t := [Attempted(n), Rebooted, Detected];
        assert t[1..][1..][1..] == [];
        assert AttemptsIn(t) == 1 + AttemptsIn(t[1..]);
        assert AttemptsIn(t[1..]) == AttemptsIn(t[1..][1..]);
      } else {
        var info' := InfoOf(SplitLines(detect(n).out));
        RetryCount(info', n, max, outcome, lost, detect);
        var rest := Retry(info', n, max, outcome, lost, detect);
        var t := [Attempted(n), Rebooted, Detected] + rest.trace;
        assert t[1..][1..][1..] == rest.trace;
        assert AttemptsIn(t) == 1 + AttemptsIn(t[1..]);
        assert AttemptsIn(t[1..]) == AttemptsIn(t[1..][1..]);
      }
    }
  }

  /** The events of the trace, in order: each attempt is numbered after the
      ones before it and no later than the last; each attempt before the last
      is followed by a reboot and a re-detection; each reboot follows an
      attempt that was not the limit's. */
  predicate WellOrdered(trace: seq<Event>, done: nat, attempts: nat, max: nat) {
    Numbered(trace, done, attempts) && RebootedAfter(trace, attempts) && RebootedBefore(trace, max)
  }

  predicate Numbered(trace: seq<Event>, done: nat, attempts: nat) {
    forall i :: 0 <= i < |trace| && trace[i].Attempted? ==> done < trace[i].n <= attempts
  }

  predicate RebootedAfter(trace: seq<Event>, attempts: nat) {
    forall i :: 0 <= i < |trace| && trace[i].Attempted? && trace[i].n < attempts ==>
      i + 2 < |trace| && trace[i + 1] == Rebooted && trace[i + 2] == Detected
  }

  predicate RebootedBefore(trace: seq<Event>, max: nat) {
    forall i :: 0 <= i < |trace| && trace[i] == Rebooted ==>
      0 < i && trace[i - 1].Attempted? && trace[i - 1].n < max
  }

  /** Every trace of the loop is well ordered. */
  lemma {:induction false} RetryOrder(info: map<string, string>, done: nat, max: nat, outcome: Outcomes,
                                      lost: CommandResult -> string, detect: nat -> CommandResult)
    requires done <= max
    ensures var r := Retry(info, done, max, outcome, lost, detect);
      WellOrdered(r.trace, done, r.attempts, max)
    decreases max - done
  {
    if done < max {
      var n := done + 1;
      var r := outcome(info, n);
      if r.Ok? && r.value.None? && n < max && detect(n).code == 0 {
        var info' := InfoOf(SplitLines(detect(n).out));
        RetryOrder(info', n, max, outcome, lost, detect);
        RetryAttempts(info', n, max, outcome, lost, detect);
        var rest := Retry(info', n, max, outcome, lost, detect);
        OrderCons(n, rest.trace, rest.attempts, max);
      } else {
        OrderShort(done, n, max);
      }
    }
  }

  /** The traces of a last attempt: the attempt alone, or, below the limit,
      followed by a reboot and a re-detection. */
  lemma OrderShort(done: nat, n: nat, max: nat)
    requires done < n <= max
    ensures WellOrdered([Attempted(n)], done, n, max)
    ensures n < max ==> WellOrdered([Attempted(n), Rebooted, Detected], done, n, max)
  {
  }

  /** Putting an attempt, a reboot and a re-detection before a well ordered
      trace of the later attempts keeps it well ordered. */
  lemma OrderCons(n: nat, rest: seq<Event>, attempts: nat, max: nat)
    requires 0 < n < max && n < attempts
    requires WellOrdered(rest, n, attempts, max)
    ensures WellOrdered([Attempted(n), Rebooted, Detected] + rest, n - 1, attempts, max)
  {
    var t := [Attempted(n), Rebooted, Detected] + rest;
    assert forall i :: 3 <= i < |t| ==> t[i] == rest[i - 3];
    assert Numbered(t, n - 1, attempts);
    assert RebootedAfter(t, attempts) by {
      forall i | 0 <= i < |t| && t[i].Attempted? && t[i].n < attempts
        ensures i + 2 < |t| && t[i + 1] == Rebooted && t[i + 2] == Detected
      {
        if i >= 3 {
          assert t[i] == rest[i - 3] && t[i + 1] == rest[i - 2] && t[i + 2] == rest[i - 1];
        }
      }
    }
    assert RebootedBefore(t, max) by {
      forall i | 0 <= i < |t| && t[i] == Rebooted
        ensures 0 < i && t[i - 1].Attempted? && t[i - 1].n < max
      {
        if i >= 3 {
          assert t[i] == rest[i - 3];
          if i > 3 {
            assert t[i - 1] == rest[i - 4];
          } else {
            assert false;
          }
        }
      }
    }
  }

  /** A GUID the loop returns is what its last attempt found, with the
      device information current at that attempt. */
  lemma {:induction false} RetryFound(info: map<string, string>, done: nat, max: nat, outcome: Outcomes,
                                      lost: CommandResult -> string, detect: nat -> CommandResult)
    ensures var r := Retry(info, done, max, outcome, lost, detect);
      r.result.Ok? && r.result.value.Some? ==>
        0 < r.attempts && r.result == outcome(r.info, r.attempts)
    decreases max - done
  {
    if done < max {
      var n := done + 1;
      var r := outcome(info, n);
      if r.Ok? && r.value.None? && n < max && detect(n).code == 0 {
        RetryFound(InfoOf(SplitLines(detect(n).out)), n, max, outcome, lost, detect);
      }
    }
  }

  /** An attempt that finds a GUID or fails ends the loop. */
  lemma RetryStops(info: map<string, string>, done: nat, max: nat, outcome: Outcomes,
                   lost: CommandResult -> string, detect: nat -> CommandResult)
    requires done < max
    requires outcome(info, done + 1).Err? || outcome(info, done + 1).value.Some?
    ensures Retry(info, done, max, outcome, lost, detect)
      == After([Attempted(done + 1)], RetryRun(outcome(info, done + 1), info, done + 1, []))
  {
  }

  /** A fruitless last attempt ends the loop without a GUID. */
  lemma RetryExhausted(info: map<string, string>, done: nat, max: nat, outcome: Outcomes,
                       lost: CommandResult -> string, detect: nat -> CommandResult)
    requires done < max && done + 1 >= max && outcome(info, done + 1) == Ok(None)
    ensures Retry(info, done, max, outcome, lost, detect)
      == After([Attempted(done + 1)], RetryRun(Ok(None), info, done + 1, []))
  {
  }

  /** After a fruitless attempt that is not the last: reboot, re-detect, and
      either stop on a missing device or go on with the new information. */
  lemma RetryRedetects(info: map<string, string>, done: nat, max: nat, outcome: Outcomes,
                       lost: CommandResult -> string, detect: nat -> CommandResult)
    requires done + 1 < max && outcome(info, done + 1) == Ok(None)
    ensures detect(done + 1).code != 0 ==>
      Retry(info, done, max, outcome, lost, detect)
      == After([Attempted(done + 1), Rebooted, Detected], RetryRun(Err(lost(detect(done + 1))), info, done + 1, []))
    ensures detect(done + 1).code == 0 ==>
      Retry(info, done, max, outcome, lost, detect)
      == After([Attempted(done + 1), Rebooted, Detected],
               Retry(InfoOf(SplitLines(detect(done + 1).out)), done + 1, max, outcome, lost, detect))
  {
  }

  /** A `RetryRun` with `acc` recorded before its trace. */
  function After(acc: seq<Event>, r: RetryRun): RetryRun {
    r.(trace := acc + r.trace)
  }

  lemma AfterAfter(acc: seq<Event>, head: seq<Event>, r: RetryRun)
    ensures After(acc, After(head, r)) == After(acc + head, r)
  {
    assert acc + (head + r.trace) == (acc + head) + r.trace;
  }

  lemma AppendAssoc(a: seq<Event>, b: seq<Event>, c: seq<Event>)
    ensures a + b + c == a + (b + c)
  {
  }

  /** Three events appended one by one are the three appended at once. */
  lemma AppendEvents(e: seq<Event>, a: Event, b: Event, c: Event)
    ensures e + [a] + [b] + [c] == e + [a, b, c]
  {
    assert [a] + [b] + [c] == [a, b, c];
  }
}
