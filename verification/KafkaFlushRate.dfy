/** When the Kafka consumer flushes on its own, told from the calls alone: a timed flush fires
    exactly when the commit interval has passed since the last flush that took place. */
module KafkaFlushRate {
  import opened KafkaConsumerSpec

  /** The clock at the last call of `manualCommitWaitOffset` */
  function Clock(run: Run): int {
    match run
    case Start => 0
    case Then(before, Revoked(now, order)) => now
    case Then(before, TimedFlush(now, order)) => now
    case Then(before, ForcedFlush(now, order)) => now
    case Then(before, e) => Clock(before)
  }

  predicate ClockAdvances(run: Run) {
    run.Then? ==> ClockAdvances(run.before) && Clock(run.before) <= Clock(run)
  }

  function Latest(times: seq<int>): int {
    if times == [] then 0 else times[|times| - 1]
  }

  /** The times of all flushes that took place: forced ones always do, timed ones once the
      interval is over. */
  function FlushTimes(cfg: Config, run: Run): seq<int> {
    match run
    case Start => []
    case Then(before, Revoked(now, order)) => FlushTimes(cfg, before) + [now]
    case Then(before, ForcedFlush(now, order)) => FlushTimes(cfg, before) + [now]
    case Then(before, TimedFlush(now, order)) =>
      FlushTimes(cfg, before) + if now - Latest(FlushTimes(cfg, before)) >= cfg.intervalMs then [now] else []
    case Then(before, e) => FlushTimes(cfg, before)
  }

  predicate Due(cfg: Config, run: Run, now: int) {
    now - Latest(FlushTimes(cfg, run)) >= cfg.intervalMs
  }

  /** The flushes that are to take place */
  predicate MustFlush(cfg: Config, run: Run, e: Event) {
    !cfg.autoCommit && (e.Revoked? || e.ForcedFlush? || (e.TimedFlush? && Due(cfg, run, e.now)))
  }

  lemma {:induction false} FlushLastMs(s: State, order: seq<string>)
    ensures FlushSlots(s, order).lastMs == s.lastMs
  {
    if order != [] {
      FlushLastMs(s, order[..|order| - 1]);
    }
  }

  /** What the consumer notes is the time of the last flush that took place. */
  lemma {:induction false} LastMsIsLatest(cfg: Config, run: Run)
    requires Legal(cfg, run) && !cfg.autoCommit
    ensures Final(cfg, run).lastMs == Latest(FlushTimes(cfg, run))
  {
    if run.Then? {
      LastMsIsLatest(cfg, run.before);
      NextLastMs(cfg, Final(cfg, run.before), run.event);
    }
  }

  lemma NextLastMs(cfg: Config, s: State, e: Event)
    requires Enabled(cfg, s, e) && !cfg.autoCommit
    ensures Next(cfg, s, e).lastMs ==
      if e.Revoked? || e.ForcedFlush? || (e.TimedFlush? && e.now - s.lastMs >= cfg.intervalMs) then e.now else s.lastMs
  {
  }

  /** No starvation: a timed flush is due if every flush so far, of whatever kind, took place
      at least an interval ago. */
  lemma DueIfNoneLately(cfg: Config, run: Run, now: int)
    requires now >= cfg.intervalMs && forall t :: t in FlushTimes(cfg, run) ==> now - t >= cfg.intervalMs
    ensures Due(cfg, run, now)
  {
    var times := FlushTimes(cfg, run);
    if times != [] {
      assert times[|times| - 1] in times;
    }
  }

  /** The times at which a timed flush took place */
  function FireTimes(cfg: Config, run: Run): seq<int> {
    match run
    case Start => []
    case Then(before, TimedFlush(now, order)) => FireTimes(cfg, before) + if Due(cfg, before, now) then [now] else []
    case Then(before, e) => FireTimes(cfg, before)
  }

  ghost predicate Spaced(cfg: Config, times: seq<int>) {
    forall i, j :: 0 <= i <= j < |times| ==> (j - i) * cfg.intervalMs <= times[j] - times[i]
  }

  lemma SpacedSnoc(cfg: Config, times: seq<int>, now: int)
    requires Spaced(cfg, times) && (times != [] ==> now - times[|times| - 1] >= cfg.intervalMs)
    ensures Spaced(cfg, times + [now])
  {
    var n := |times|;
    forall i | 0 <= i < n ensures (n - i) * cfg.intervalMs <= now - times[i] {
      assert (n - i) * cfg.intervalMs == (n - 1 - i) * cfg.intervalMs + cfg.intervalMs;
    }
  }

  lemma {:induction false} FiresAreSpaced(cfg: Config, run: Run)
    requires ClockAdvances(run)
    ensures Spaced(cfg, FireTimes(cfg, run))
    ensures FireTimes(cfg, run) != [] ==> FireTimes(cfg, run)[|FireTimes(cfg, run)| - 1] <= Latest(FlushTimes(cfg, run))
    ensures Latest(FlushTimes(cfg, run)) <= Clock(run)
  {
    if run.Then? {
      FiresAreSpaced(cfg, run.before);
      if run.event.TimedFlush? && Due(cfg, run.before, run.event.now) {
        SpacedSnoc(cfg, FireTimes(cfg, run.before), run.event.now);
      }
    }
  }

  /** n timed flushes that take place between two of them, L milliseconds apart, satisfy
      (n - 1) * interval <= L. */
  lemma FlushRateBounded(cfg: Config, run: Run, i: nat, j: nat)
    requires ClockAdvances(run) && i <= j < |FireTimes(cfg, run)|
    ensures
      var times := FireTimes(cfg, run);
      var n, window := j - i + 1, times[j] - times[i];
      (n - 1) * cfg.intervalMs <= window
  {
    FiresAreSpaced(cfg, run);
  }
}
