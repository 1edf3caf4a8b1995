/** The timer behind the Pulsar consumer's acknowledgements: time points in nanoseconds, a
    duration truncated first to microseconds and then to milliseconds, and a re-arm exactly
    when the interval is reached. */
module PulsarTimer {

  const NANOS_PER_MILLI := 1_000_000

  /** Integer division that truncates toward zero */
  function Trunc(a: int, b: int): int
    requires b > 0
  {
    if a >= 0 then a / b else -((-a) / b)
  }

  function ElapsedMs(before: int, now: int): int {
    Trunc(Trunc(now - before, 1000), 1000)
  }

  class Timer {
    var before: int
    var intervalMs: int

    constructor (interval: int)
      ensures intervalMs == interval
    {
      before, intervalMs := 0, interval;
    }

    method Start(now: int)
      modifies this
      ensures before == now && intervalMs == old(intervalMs)
    {
      before := now;
    }

    /** The whole milliseconds since the last start; when they reach the interval, this call
        is the new start. */
    method Stop(now: int) returns (result: int)
      modifies this
      ensures result == ElapsedMs(old(before), now)
      ensures before == (if result >= intervalMs then now else old(before)) && intervalMs == old(intervalMs)
      ensures old(before) <= now ==> (result >= intervalMs <==> now - old(before) >= intervalMs * 1_000_000)
    {
      result := Trunc(now - before, 1000);
      result := Trunc(result, 1000);
      if before <= now {
        FiresIff(before, intervalMs, now);
      }
      if result >= intervalMs {
        before := now;
      }
    }
  }

  predicate Fires(before: int, interval: int, now: int) {
    ElapsedMs(before, now) >= interval
  }

  function After(before: int, interval: int, now: int): int {
    if Fires(before, interval, now) then now else before
  }

  /** The start point after a series of checks, and how many of them fired */
  function Armed(start: int, interval: int, checks: seq<int>): int {
    if checks == [] then start
    else After(Armed(start, interval, checks[..|checks| - 1]), interval, checks[|checks| - 1])
  }

  function Rounds(start: int, interval: int, checks: seq<int>): nat {
    if checks == [] then 0
    else
      var c := checks[..|checks| - 1];
      Rounds(start, interval, c) + if Fires(Armed(start, interval, c), interval, checks[|checks| - 1]) then 1 else 0
  }

  ghost predicate Nondecreasing(start: int, checks: seq<int>) {
    forall i :: 0 <= i < |checks| ==> start <= checks[i] && (i > 0 ==> checks[i - 1] <= checks[i])
  }

  lemma ElapsedIsFloor(before: int, now: int)
    requires before <= now
    ensures ElapsedMs(before, now) * NANOS_PER_MILLI <= now - before < (ElapsedMs(before, now) + 1) * NANOS_PER_MILLI
  {
    var d := now - before;
    assert d / 1000 * 1000 <= d < d / 1000 * 1000 + 1000;
  }

  lemma {:induction false} ArmedWithin(start: int, interval: int, checks: seq<int>)
    requires Nondecreasing(start, checks)
    ensures start <= Armed(start, interval, checks)
    ensures checks == [] ==> Armed(start, interval, checks) == start
    ensures checks != [] ==> Armed(start, interval, checks) <= checks[|checks| - 1]
  {
    if checks != [] {
      ArmedWithin(start, interval, checks[..|checks| - 1]);
    }
  }

  /** A check fires exactly when a whole interval of real time has passed since the last round. */
  lemma FiresIff(before: int, interval: int, now: int)
    requires before <= now
    ensures Fires(before, interval, now) <==> now - before >= interval * 1_000_000
  {
    ElapsedIsFloor(before, now);
  }

  lemma OneMoreRound(start: int, before: int, now: int, n: nat, unit: int, fired: bool)
    requires n * unit <= before - start && (fired ==> now - before >= unit)
    ensures fired ==> (n + 1) * unit <= now - start
  {
    assert (n + 1) * unit == n * unit + unit;
  }

  /** Truncating twice loses no round: whenever n rounds have fired, at least n whole
      intervals have passed since the start. */
  lemma {:induction false} RoundsNeedTime(start: int, interval: int, checks: seq<int>, unit: int)
    requires Nondecreasing(start, checks) && unit == interval * NANOS_PER_MILLI
    ensures Rounds(start, interval, checks) * unit <= Armed(start, interval, checks) - start
  {
    if checks != [] {
      var c, now := checks[..|checks| - 1], checks[|checks| - 1];
      RoundsNeedTime(start, interval, c, unit);
      ArmedWithin(start, interval, c);
      var before := Armed(start, interval, c);
      FiresIff(before, interval, now);
      OneMoreRound(start, before, now, Rounds(start, interval, c), unit, Fires(before, interval, now));
    }
  }

  // ---- Which checks fire ----

  /** The n-th check fires. */
  predicate FiredAt(start: int, interval: int, checks: seq<int>, n: nat)
    requires n < |checks|
  {
    Fires(Armed(start, interval, checks[..n]), interval, checks[n])
  }

  /** The timer counts from the last check that fired, or from the start. */
  lemma {:induction false} ArmedAtLastFired(start: int, interval: int, checks: seq<int>, n: nat)
    requires n <= |checks|
    ensures
      var a := Armed(start, interval, checks[..n]);
      || (a == start && forall j :: 0 <= j < n ==> !FiredAt(start, interval, checks, j))
      || (exists i :: 0 <= i < n && FiredAt(start, interval, checks, i) && a == checks[i])
  {
    if n > 0 {
      assert checks[..n][..n - 1] == checks[..n - 1];
      ArmedAtLastFired(start, interval, checks, n - 1);
      if FiredAt(start, interval, checks, n - 1) {
        assert Armed(start, interval, checks[..n]) == checks[n - 1];
      }
    }
  }

  lemma {:induction false} FiredBeforeArmed(start: int, interval: int, checks: seq<int>, n: nat, j: nat)
    requires Nondecreasing(start, checks) && j < n <= |checks| && FiredAt(start, interval, checks, j)
    ensures start <= checks[j] <= Armed(start, interval, checks[..n])
  {
    assert checks[..n][..n - 1] == checks[..n - 1];
    assert checks[..n][n - 1] == checks[n - 1];
    if j < n - 1 {
      FiredBeforeArmed(start, interval, checks, n - 1, j);
      Ascends(start, checks, j, n - 1);
    }
  }

  lemma {:induction false} Ascends(start: int, checks: seq<int>, i: nat, j: nat)
    requires Nondecreasing(start, checks) && i <= j < |checks|
    ensures checks[i] <= checks[j]
  {
    if i < j {
      Ascends(start, checks, i, j - 1);
    }
  }

  /** Neither too often nor too rarely: with a clock that does not go back, a check fires if
      and only if the start, and every earlier check that fired, is at least a whole interval
      of real time ago. */
  lemma FiredIff(start: int, interval: int, checks: seq<int>, n: nat)
    requires Nondecreasing(start, checks) && n < |checks|
    ensures FiredAt(start, interval, checks, n) <==>
      && checks[n] - start >= interval * 1_000_000
      && forall j :: 0 <= j < n && FiredAt(start, interval, checks, j) ==> checks[n] - checks[j] >= interval * 1_000_000
  {
    var a := Armed(start, interval, checks[..n]);
    ArmedAtLastFired(start, interval, checks, n);
    assert Nondecreasing(start, checks[..n]);
    ArmedWithin(start, interval, checks[..n]);
    if n > 0 {
      Ascends(start, checks, n - 1, n);
    }
    FiresIff(a, interval, checks[n]);
    forall j | 0 <= j < n && FiredAt(start, interval, checks, j) ensures checks[j] <= a {
      FiredBeforeArmed(start, interval, checks, n, j);
    }
  }
}
