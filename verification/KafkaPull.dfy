/** What a call of `consume` gives in the pull build: it polls, keeps what it got, flushes if it
    is time, and only then returns the message. */
module KafkaPull {
  import opened KafkaConsumerSpec
  import opened KafkaOwnership
  import opened KafkaFlushRate
  import opened KafkaHistory
  import opened KafkaEffects

  /** One call that returns a message */
  function Consumed(run: Run, m: Message, now: int, order: seq<string>): Run {
    Then(Then(Then(run, Polled(m)), Keep), TimedFlush(now, order))
  }

  /** Where a message is when `consume` comes to its flush */
  lemma KeptWhere(cfg: Config, s: State, m: Message)
    ensures
      var t := KeepIt(cfg, s, m);
      && (cfg.autoCommit ==> Destroy(m) in t.trace)
      && (!cfg.autoCommit && cfg.userCommit ==> Holds(cfg, t, m))
      && (!cfg.autoCommit && !cfg.userCommit ==> InSlot(cfg, t, m))
      && (Commit(m) in t.trace ==> Commit(m) in s.trace)
  {
    if cfg.userCommit && !cfg.autoCommit {
      var v := KeepIt(cfg, s, m).vecs[KeyOf(cfg, m)];
      assert v[|v| - 1] == m;
    }
  }

  lemma CommittedWerePolled(t: seq<Act>)
    requires Safe(t)
    ensures forall m :: Commit(m) in t ==> Poll(m) in t
  {
    forall m | Commit(m) in t ensures Poll(m) in t {
      var j :| 0 <= j < |t| && t[j] == Commit(m);
      assert SafeNext(t[..j], t[j]);
    }
  }

  lemma ConsumedKept(cfg: Config, run: Run, m: Message)
    requires cfg.pull && Legal(cfg, run) && Legal(cfg, Then(Then(run, Polled(m)), Keep))
    ensures
      var t := Final(cfg, Then(Then(run, Polled(m)), Keep));
      && Inv(cfg, t) && Commit(m) !in t.trace && t.phase.Flushing?
      && (cfg.userCommit ==> Holds(cfg, t, m))
      && (!cfg.userCommit && !cfg.autoCommit ==> InSlot(cfg, t, m))
      && (cfg.autoCommit ==> Destroy(m) in t.trace)
  {
    var polled := Then(run, Polled(m));
    assert Legal(cfg, polled);
    RunKeeps(cfg, run);
    RunKeeps(cfg, Then(polled, Keep));
    CommittedWerePolled(Final(cfg, run).trace);
    KeptWhere(cfg, Final(cfg, polled), m);
  }

  lemma HeldIsInNoSlot(cfg: Config, s: State, m: Message)
    requires Inv(cfg, s) && s.phase.Flushing? && Holds(cfg, s, m)
    ensures !InSlot(cfg, s, m)
  {
  }

  /** Delivery before commit is a property of the callback build only: here a call commits a
      message before it returns it if and only if the consumer commits on its own and the
      flush of that call is due. */
  lemma CommittedBeforeReturnedIff(cfg: Config, run: Run, m: Message, now: int, order: seq<string>)
    requires cfg.pull && Legal(cfg, run) && Legal(cfg, Consumed(run, m, now, order))
    ensures Commit(m) in Final(cfg, Consumed(run, m, now, order)).trace <==>
            !cfg.userCommit && !cfg.autoCommit && Due(cfg, run, now)
  {
    var kept := Then(Then(run, Polled(m)), Keep);
    assert Legal(cfg, kept) && Legal(cfg, kept.before);
    assert FlushTimes(cfg, kept) == FlushTimes(cfg, kept.before) == FlushTimes(cfg, run);
    ConsumedKept(cfg, run, m);
    SlotsAreWaiting(cfg, kept, m);
    CommitsIff(cfg, kept, TimedFlush(now, order), m);
    assert Consumed(run, m, now, order) == Then(kept, TimedFlush(now, order));
    assert MustFlush(cfg, kept, TimedFlush(now, order)) <==> !cfg.autoCommit && Due(cfg, run, now);
    if cfg.userCommit {
      HeldIsInNoSlot(cfg, Final(cfg, kept), m);
    }
  }

  lemma HeldStaysLive(cfg: Config, s: State, now: int, order: seq<string>, m: Message)
    requires Inv(cfg, s) && s.phase.Flushing? && Enabled(cfg, s, TimedFlush(now, order)) && Holds(cfg, s, m)
    ensures Live(Next(cfg, s, TimedFlush(now, order)).trace, m)
  {
    FlushKeeps(cfg, s, false, now, order);
    var n := Next(cfg, s, TimedFlush(now, order));
    assert Holds(cfg, n, m);
  }

  lemma SlotLiveIff(cfg: Config, s: State, now: int, order: seq<string>, m: Message)
    requires Inv(cfg, s) && s.phase.Flushing? && Enabled(cfg, s, TimedFlush(now, order)) && InSlot(cfg, s, m)
    requires !cfg.autoCommit && !cfg.userCommit
    ensures Live(Next(cfg, s, TimedFlush(now, order)).trace, m) <==> !Fires(cfg, s, false, now)
  {
    FlushKeeps(cfg, s, false, now, order);
    var n := Next(cfg, s, TimedFlush(now, order));
    if Fires(cfg, s, false, now) {
      assert !InSlot(cfg, n, m) && !Holds(cfg, n, m);
    }
  }

  /** The message pointer that a call returns is still alive if and only if commits are the
      user's, or the consumer's own and the flush of this very call is not due. */
  lemma ReturnedPointerLiveIff(cfg: Config, run: Run, m: Message, now: int, order: seq<string>)
    requires cfg.pull && Legal(cfg, run) && Legal(cfg, Consumed(run, m, now, order))
    ensures Live(Final(cfg, Consumed(run, m, now, order)).trace, m) <==>
            cfg.userCommit || (!cfg.autoCommit && !Due(cfg, run, now))
  {
    var kept := Then(Then(run, Polled(m)), Keep);
    assert Legal(cfg, kept) && Legal(cfg, kept.before);
    ConsumedKept(cfg, run, m);
    var t := Final(cfg, kept);
    if cfg.userCommit {
      HeldStaysLive(cfg, t, now, order, m);
    } else if !cfg.autoCommit {
      LastMsIsLatest(cfg, kept);
      SlotLiveIff(cfg, t, now, order, m);
    }
  }
}
