/** What the queue-full loop of the Pulsar producer reads and returns and what it submits, told
    from the events alone, and what a failure return means. */
module PulsarSendResult {
  import opened PulsarSend

  // ---- What is read, returned and submitted, from the events alone ----

  /** The iterations begun */
  function Iterations(run: Run): nat {
    match run
    case Start => 0
    case Then(before, e) => Iterations(before) + if e.NewChain? then 1 else 0
  }

  /** The result with which a copy of iteration c last completed; Ok if none did yet */
  function LastResult(run: Run, c: int): Result {
    match run
    case Start => Ok
    case Then(before, Complete(chain, result)) => if chain == c then result else LastResult(before, c)
    case Then(before, e) => LastResult(before, c)
  }

  /** How often a copy of iteration c timed out */
  function Timeouts(run: Run, c: nat): nat {
    match run
    case Start => 0
    case Then(before, Complete(chain, result)) => Timeouts(before, c) + if chain == c && result == Timeout then 1 else 0
    case Then(before, e) => Timeouts(before, c)
  }

  ghost predicate ChainSeen(run: Run, c: nat, ch: Chain) {
    && ch.cell == LastResult(run, c)
    && (ch.status.InFlight? || ch.status.Deciding? ==>
          Timeouts(run, c) == ch.retries + if ch.status == Deciding(Timeout) then 1 else 0)
  }

  lemma {:induction false} NothingBefore(cfg: Config, run: Run, c: nat)
    requires Legal(cfg, run) && |Final(cfg, run).chains| <= c
    ensures LastResult(run, c) == Ok && Timeouts(run, c) == 0
  {
    if run.Then? {
      NothingBefore(cfg, run.before, c);
    }
  }

  lemma {:induction false} ChainsSeen(cfg: Config, run: Run)
    requires Legal(cfg, run)
    ensures |Final(cfg, run).chains| == Iterations(run)
    ensures forall c :: 0 <= c < |Final(cfg, run).chains| ==> ChainSeen(run, c, Final(cfg, run).chains[c])
  {
    if run.Then? {
      ChainsSeen(cfg, run.before);
      NothingBefore(cfg, run.before, |Final(cfg, run.before).chains|);
      var s, n := Final(cfg, run.before), Final(cfg, run);
      forall c | 0 <= c < |n.chains| ensures ChainSeen(run, c, n.chains[c]) {
        assert c < |s.chains| ==> ChainSeen(run.before, c, s.chains[c]);
      }
    }
  }

  /** A read: the loop goes on exactly after "queue is full", and returns any other result as
      it is.  That result is the last one that came in for this iteration before the read, and
      Ok only if that was Ok or none came. */
  lemma ReadIff(cfg: Config, run: Run)
    requires Legal(cfg, Then(run, Read))
    ensures
      var r := LastResult(run, Iterations(run) - 1);
      Final(cfg, Then(run, Read)).outer == if r == QueueFull then Ready else Returned(r)
  {
    ChainsSeen(cfg, run);
    var c := |Final(cfg, run).chains| - 1;
    assert ChainSeen(run, c, Final(cfg, run).chains[c]);
  }

  /** What the last read or giving up decided */
  function LastRead(run: Run): Result {
    match run
    case Start => QueueFull
    case Then(before, Read) => LastResult(before, Iterations(before) - 1)
    case Then(before, GiveUp) => QueueFull
    case Then(before, e) => LastRead(before)
  }

  /** So on every run the returned result is what the last read found, "queue is full" if the
      loop gave up; and the loop is on only while that was "queue is full". */
  lemma {:induction false} ReturnedIsRead(cfg: Config, run: Run)
    requires Legal(cfg, run)
    ensures
      var o := Final(cfg, run).outer;
      && (o.Returned? ==> o.result == LastRead(run))
      && (o.Ready? ==> LastRead(run) == QueueFull)
      && (o.Ready? && Iterations(run) >= cfg.queueFullRetries ==> Enabled(cfg, Final(cfg, run), GiveUp))
  {
    if run.Then? {
      ReturnedIsRead(cfg, run.before);
      ChainsSeen(cfg, run);
      if run.event.Read? {
        ReadIff(cfg, run.before);
      }
    }
  }

  /** A submission is made by each iteration, and by a callback exactly if its copy timed out
      and no more than T copies of the iteration have; nothing else submits. */
  lemma SubmitsIff(cfg: Config, run: Run, e: Event)
    requires Legal(cfg, Then(run, e))
    ensures
      var s, n := Final(cfg, run), Final(cfg, Then(run, e));
      var submits := e.NewChain? ||
        (e.Decide? && LastResult(run, e.chain) == Timeout && Timeouts(run, e.chain) <= cfg.timeoutRetries);
      n.sent == s.sent + if submits then [Submission(cfg.payload, cfg.key)] else []
  {
    ChainsSeen(cfg, run);
    RunKeeps(cfg, run);
    var s := Final(cfg, run);
    if e.Decide? {
      assert ChainSeen(run, e.chain, s.chains[e.chain]);
      assert ChainOk(cfg, s.chains[e.chain]);
    }
    assert s.sent + [] == s.sent;
  }

  // ---- What the return value tells ----

  predicate SomeLive(cfg: Config, s: State) {
    exists c :: 0 <= c < |s.chains| && Live(cfg, s.chains[c])
  }

  /** A failure is returned only when the message is out of the producer's hands. */
  ghost predicate FailureIsFinal(cfg: Config) {
    forall run :: Legal(cfg, run) && Final(cfg, run).outer.Returned? && Final(cfg, run).outer.result != Ok ==>
      !SomeLive(cfg, Final(cfg, run))
  }

  /** After a return: the last chain is not live unless the cell went from a timeout to a
      resubmission, or the return was Ok. */
  predicate ReturnInv(cfg: Config, s: State) {
    s.outer.Returned? && s.outer.result != Ok && cfg.timeoutRetries <= 0 ==> !SomeLive(cfg, s)
  }

  lemma {:induction false} ReturnRunKeeps(cfg: Config, run: Run)
    requires Legal(cfg, run)
    ensures ReturnInv(cfg, Final(cfg, run))
  {
    if run.Then? {
      ReturnRunKeeps(cfg, run.before);
      RunKeeps(cfg, run.before);
      RunKeeps(cfg, run);
      var s, n := Final(cfg, run.before), Final(cfg, run);
      if n.outer.Returned? && n.outer.result != Ok && cfg.timeoutRetries <= 0 {
        forall c | 0 <= c < |n.chains| ensures !Live(cfg, n.chains[c]) {
          assert s.outer.Returned? ==> !Live(cfg, s.chains[c]);
        }
      }
    }
  }

  /** A false return can be followed by a successful send exactly when timeouts are retried:
      the loop may read "timeout" from the shared cell of a chain that is about to resubmit. */
  lemma FailureIsFinalIff(cfg: Config)
    ensures FailureIsFinal(cfg) <==> cfg.timeoutRetries <= 0 || cfg.queueFullRetries <= 0
  {
    if cfg.timeoutRetries <= 0 {
      forall run | Legal(cfg, run) && Final(cfg, run).outer.Returned? && Final(cfg, run).outer.result != Ok
        ensures !SomeLive(cfg, Final(cfg, run))
      {
        ReturnRunKeeps(cfg, run);
      }
    } else if cfg.queueFullRetries <= 0 {
      forall run | Legal(cfg, run) ensures !SomeLive(cfg, Final(cfg, run)) {
        RunKeeps(cfg, run);
      }
    } else {
      var r := Then(Then(Then(Start, NewChain), Complete(0, Timeout)), Read);
      assert Legal(cfg, Then(Start, NewChain));
      assert Legal(cfg, Then(Then(Start, NewChain), Complete(0, Timeout)));
      assert Legal(cfg, r) && Final(cfg, r).outer == Returned(Timeout);
      assert Live(cfg, Final(cfg, r).chains[0]);
      assert SomeLive(cfg, Final(cfg, r));
    }
  }
}
