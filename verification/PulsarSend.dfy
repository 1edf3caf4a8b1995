/** One asynchronous send of the Pulsar producer: the queue-full loop on the caller's thread
    and, inside it, callbacks that resubmit themselves on timeout.  All copies of a callback
    share one result cell.  A chain is what one loop iteration starts: a submission and its
    resubmissions.  Completions may come at any time, on any thread: a synchronous one is a
    completion between the submission and the read. */
module PulsarSend {

  datatype Result = Ok | Timeout | QueueFull | Failure(code: int)

  datatype Status = InFlight | Deciding(result: Result) | Done

  /** The shared cell, the retry count the live copy carries, and where that copy is. */
  datatype Chain = Chain(cell: Result, retries: nat, status: Status)

  datatype Outer = Ready | Sent | Returned(result: Result)

  datatype Submission = Submission(payload: string, key: string)

  datatype State = State(chains: seq<Chain>, outer: Outer, sent: seq<Submission>)

  /** `queue.full.retry.count`, `timeout.retry.count`, and the message */
  datatype Config = Config(queueFullRetries: int, timeoutRetries: int, payload: string, key: string)

  datatype Event =
    | NewChain
    | GiveUp
    | Read
    | Complete(chain: nat, result: Result)
    | Decide(chain: nat)

  const INIT := State([], Ready, [])

  function Message(cfg: Config): Submission {
    Submission(cfg.payload, cfg.key)
  }

  predicate Retries(cfg: Config, c: Chain) {
    c.status == Deciding(Timeout) && c.retries < cfg.timeoutRetries
  }

  predicate Enabled(cfg: Config, s: State, e: Event) {
    match e
    case NewChain => s.outer.Ready? && |s.chains| < cfg.queueFullRetries
    case GiveUp => s.outer.Ready? && |s.chains| >= cfg.queueFullRetries
    case Read => s.outer.Sent? && s.chains != []
    case Complete(c, r) => c < |s.chains| && s.chains[c].status.InFlight?
    case Decide(c) => c < |s.chains| && s.chains[c].status.Deciding?
  }

  function Next(cfg: Config, s: State, e: Event): State
    requires Enabled(cfg, s, e)
  {
    match e
    case NewChain => State(s.chains + [Chain(Ok, 0, InFlight)], Sent, s.sent + [Message(cfg)])
    case GiveUp => s.(outer := Returned(QueueFull))
    case Read =>
      var r := s.chains[|s.chains| - 1].cell;
      s.(outer := if r == QueueFull then Ready else Returned(r))
    case Complete(c, r) => s.(chains := s.chains[c := s.chains[c].(cell := r, status := Deciding(r))])
    case Decide(c) =>
      var ch := s.chains[c];
      if Retries(cfg, ch) then
        s.(chains := s.chains[c := ch.(retries := ch.retries + 1, status := InFlight)], sent := s.sent + [Message(cfg)])
      else
        s.(chains := s.chains[c := ch.(status := Done)])
  }

  datatype Run = Start | Then(before: Run, event: Event)

  predicate Legal(cfg: Config, run: Run)
    decreases run, 0
  {
    match run
    case Start => true
    case Then(before, e) => Legal(cfg, before) && Enabled(cfg, Final(cfg, before), e)
  }

  function Final(cfg: Config, run: Run): State
    requires Legal(cfg, run)
    decreases run, 1
  {
    match run
    case Start => INIT
    case Then(before, e) => Next(cfg, Final(cfg, before), e)
  }

  // ---- The invariant ----

  /** A copy is outstanding, or its callback is about to resubmit. */
  predicate Live(cfg: Config, c: Chain) {
    c.status.InFlight? || Retries(cfg, c)
  }

  function Max0(n: int): nat {
    if n < 0 then 0 else n
  }

  predicate ChainOk(cfg: Config, c: Chain) {
    && c.retries <= Max0(cfg.timeoutRetries)
    && (c.status.InFlight? ==> c.cell == if c.retries == 0 then Ok else Timeout)
    && (c.status.Deciding? ==> c.cell == c.status.result)
  }

  predicate Inv(cfg: Config, s: State) {
    && (forall c :: 0 <= c < |s.chains| ==> ChainOk(cfg, s.chains[c]))
    && (forall c :: 0 <= c < |s.chains| - 1 ==> s.chains[c].cell == QueueFull)
    && (s.outer.Ready? && s.chains != [] ==> s.chains[|s.chains| - 1].cell == QueueFull)
    && (s.outer.Sent? ==> s.chains != [])
    && (s.outer == Returned(QueueFull) ==>
          |s.chains| == Max0(cfg.queueFullRetries) && forall c :: 0 <= c < |s.chains| ==> s.chains[c].cell == QueueFull)
    && (s.outer.Returned? && s.outer.result != QueueFull ==> s.chains != [])
    && |s.chains| <= Max0(cfg.queueFullRetries)
    && |s.sent| == Sends(s.chains)
    && (forall i :: 0 <= i < |s.sent| ==> s.sent[i] == Message(cfg))
  }

  /** The submissions the chains made */
  function Sends(chains: seq<Chain>): nat {
    if chains == [] then 0 else Sends(chains[..|chains| - 1]) + 1 + chains[|chains| - 1].retries
  }

  lemma {:induction false} SendsUpdate(chains: seq<Chain>, c: nat, ch: Chain)
    requires c < |chains|
    ensures Sends(chains[c := ch]) == Sends(chains) - chains[c].retries + ch.retries
  {
    var n := |chains| - 1;
    if c == n {
      assert chains[c := ch][..n] == chains[..n];
    } else {
      assert chains[c := ch][..n] == chains[..n][c := ch];
      SendsUpdate(chains[..n], c, ch);
    }
  }

  lemma SendsSnoc(chains: seq<Chain>, ch: Chain)
    ensures Sends(chains + [ch]) == Sends(chains) + 1 + ch.retries
  {
    assert (chains + [ch])[..|chains|] == chains;
  }

  lemma NewChainKeeps(cfg: Config, s: State)
    requires Inv(cfg, s) && Enabled(cfg, s, NewChain)
    ensures Inv(cfg, Next(cfg, s, NewChain))
  {
    SendsSnoc(s.chains, Chain(Ok, 0, InFlight));
  }

  lemma CompleteKeeps(cfg: Config, s: State, c: nat, r: Result)
    requires Inv(cfg, s) && Enabled(cfg, s, Complete(c, r))
    ensures Inv(cfg, Next(cfg, s, Complete(c, r)))
  {
    SendsUpdate(s.chains, c, s.chains[c].(cell := r, status := Deciding(r)));
  }

  lemma DecideKeeps(cfg: Config, s: State, c: nat)
    requires Inv(cfg, s) && Enabled(cfg, s, Decide(c))
    ensures Inv(cfg, Next(cfg, s, Decide(c)))
  {
    SendsUpdate(s.chains, c, Next(cfg, s, Decide(c)).chains[c]);
  }

  lemma NextKeeps(cfg: Config, s: State, e: Event)
    requires Inv(cfg, s) && Enabled(cfg, s, e)
    ensures Inv(cfg, Next(cfg, s, e))
  {
    match e
    case NewChain => NewChainKeeps(cfg, s);
    case GiveUp =>
    case Read =>
    case Complete(c, r) => CompleteKeeps(cfg, s, c, r);
    case Decide(c) => DecideKeeps(cfg, s, c);
  }

  lemma {:induction false} RunKeeps(cfg: Config, run: Run)
    requires Legal(cfg, run)
    ensures Inv(cfg, Final(cfg, run))
  {
    if run.Then? {
      RunKeeps(cfg, run.before);
      NextKeeps(cfg, Final(cfg, run.before), run.event);
    }
  }

  // ---- At most one live chain ----

  /** Whatever the interleaving, at most one chain is live, the newest one: at most one copy of
      the payload is outstanding at any time. */
  lemma AtMostOneLiveChain(cfg: Config, run: Run, c: nat)
    requires Legal(cfg, run) && c < |Final(cfg, run).chains| && Live(cfg, Final(cfg, run).chains[c])
    ensures c == |Final(cfg, run).chains| - 1
    ensures Final(cfg, run).outer != Ready
  {
    RunKeeps(cfg, run);
  }

  /** A chain whose shared cell reads "queue is full" is dead, and stays as it is but for the
      callback's end. */
  lemma QueueFullIsDead(cfg: Config, run: Run, e: Event, c: nat)
    requires Legal(cfg, Then(run, e)) && c < |Final(cfg, run).chains| && Final(cfg, run).chains[c].cell == QueueFull
    ensures !Live(cfg, Final(cfg, run).chains[c])
    ensures
      var n := Final(cfg, Then(run, e)).chains[c];
      n.cell == QueueFull && n.retries == Final(cfg, run).chains[c].retries
  {
    RunKeeps(cfg, run);
  }

  /** The loop gives up only after every iteration's chain died of a full queue; then nothing
      is outstanding, and nothing is ever sent again. */
  lemma GaveUpMeansNothingSentLater(cfg: Config, run: Run, e: Event)
    requires Legal(cfg, Then(run, e)) && Final(cfg, run).outer == Returned(QueueFull)
    ensures forall c :: 0 <= c < |Final(cfg, run).chains| ==> !Live(cfg, Final(cfg, run).chains[c])
    ensures |Final(cfg, run).chains| == Max0(cfg.queueFullRetries)
    ensures Final(cfg, Then(run, e)).outer == Returned(QueueFull)
    ensures Final(cfg, Then(run, e)).sent == Final(cfg, run).sent
  {
    RunKeeps(cfg, run);
  }

  // ---- How often a message is submitted ----

  lemma {:induction false} SendsBound(chains: seq<Chain>, most: nat)
    requires forall c :: 0 <= c < |chains| ==> chains[c].retries <= most
    ensures Sends(chains) <= |chains| * (1 + most)
  {
    if chains != [] {
      var n := |chains| - 1;
      SendsBound(chains[..n], most);
      assert |chains| * (1 + most) == n * (1 + most) + (1 + most);
    }
  }

  /** Every submission is of this message under this key, and there are at most
      Q * (1 + max(0, T)) of them. */
  lemma SubmissionsBounded(cfg: Config, run: Run)
    requires Legal(cfg, run)
    ensures forall i :: 0 <= i < |Final(cfg, run).sent| ==> Final(cfg, run).sent[i] == Submission(cfg.payload, cfg.key)
    ensures |Final(cfg, run).sent| <= Max0(cfg.queueFullRetries) * (1 + Max0(cfg.timeoutRetries))
  {
    RunKeeps(cfg, run);
    var s := Final(cfg, run);
    var t := Max0(cfg.timeoutRetries);
    SendsBound(s.chains, t);
    assert |s.chains| * (1 + t) <= Max0(cfg.queueFullRetries) * (1 + t) by {
      MulMonotone(|s.chains|, Max0(cfg.queueFullRetries), 1 + t);
    }
  }

  lemma MulMonotone(a: nat, b: nat, c: nat)
    requires a <= b
    ensures a * c <= b * c
  {
    assert b * c == a * c + (b - a) * c;
  }

  /** No timeout completes before the loop has returned. */
  predicate NoEarlyTimeout(cfg: Config, run: Run)
    requires Legal(cfg, run)
  {
    match run
    case Start => true
    case Then(before, e) =>
      && NoEarlyTimeout(cfg, before)
      && (e.Complete? && e.result == Timeout ==> Final(cfg, before).outer.Returned?)
  }

  predicate Unretried(c: Chain) {
    c.retries == 0 && c.status != Deciding(Timeout)
  }

  /** Only the newest chain can have retried, and only after the return. */
  predicate LateInv(s: State) {
    && (forall c :: 0 <= c < |s.chains| - 1 ==> Unretried(s.chains[c]))
    && (!s.outer.Returned? && s.chains != [] ==> Unretried(s.chains[|s.chains| - 1]))
  }

  lemma LateNextKeeps(cfg: Config, s: State, e: Event)
    requires Inv(cfg, s) && LateInv(s) && Enabled(cfg, s, e)
    requires e.Complete? && e.result == Timeout ==> s.outer.Returned?
    ensures LateInv(Next(cfg, s, e))
  {
    match e
    case NewChain =>
    case GiveUp =>
    case Read =>
    case Complete(c, r) => assert c == |s.chains| - 1;
    case Decide(c) =>
  }

  lemma {:induction false} LateRunKeeps(cfg: Config, run: Run)
    requires Legal(cfg, run) && NoEarlyTimeout(cfg, run)
    ensures LateInv(Final(cfg, run))
  {
    if run.Then? {
      LateRunKeeps(cfg, run.before);
      RunKeeps(cfg, run.before);
      LateNextKeeps(cfg, Final(cfg, run.before), run.event);
    }
  }

  lemma {:induction false} SendsUnretried(chains: seq<Chain>)
    requires forall c :: 0 <= c < |chains| ==> Unretried(chains[c])
    ensures Sends(chains) == |chains|
  {
    if chains != [] {
      SendsUnretried(chains[..|chains| - 1]);
    }
  }

  /** If timeouts only come after the return, the retries add up to T, not multiply with Q. */
  lemma LateTimeoutsBounded(cfg: Config, run: Run)
    requires Legal(cfg, run) && NoEarlyTimeout(cfg, run)
    ensures |Final(cfg, run).sent| <= Max0(cfg.queueFullRetries) + Max0(cfg.timeoutRetries)
  {
    RunKeeps(cfg, run);
    LateRunKeeps(cfg, run);
    var s := Final(cfg, run);
    if s.chains != [] {
      SendsUnretried(s.chains[..|s.chains| - 1]);
    }
  }

  // ---- The product bound is reached ----

  /** The chain times out `n` times, each time resubmitting. */
  function TimedOut(run: Run, c: nat, n: nat): Run {
    if n == 0 then run else Then(Then(TimedOut(run, c, n - 1), Complete(c, Timeout)), Decide(c))
  }

  lemma {:induction false} TimedOutEffect(cfg: Config, run: Run, c: nat, n: nat)
    requires Legal(cfg, run) && c < |Final(cfg, run).chains|
    requires Final(cfg, run).chains[c].status.InFlight?
    requires n > 0 ==> Final(cfg, run).chains[c].retries + n <= cfg.timeoutRetries
    ensures Legal(cfg, TimedOut(run, c, n))
    ensures
      var s, t := Final(cfg, run), Final(cfg, TimedOut(run, c, n));
      && |t.sent| == |s.sent| + n && t.outer == s.outer && |t.chains| == |s.chains|
      && t.chains[c].status.InFlight? && t.chains[c].retries == s.chains[c].retries + n
  {
    if n > 0 {
      TimedOutEffect(cfg, run, c, n - 1);
      var r := TimedOut(run, c, n - 1);
      assert Legal(cfg, Then(r, Complete(c, Timeout)));
    }
  }

  /** A whole iteration: a chain that uses up its retries and then finds the queue full. */
  function Exhausted(cfg: Config, run: Run, c: nat): Run {
    Then(Then(Then(TimedOut(Then(run, NewChain), c, Max0(cfg.timeoutRetries)), Complete(c, QueueFull)), Decide(c)), Read)
  }

  function ExhaustedTimes(cfg: Config, n: nat): Run {
    if n == 0 then Start else Exhausted(cfg, ExhaustedTimes(cfg, n - 1), n - 1)
  }

  lemma {:induction false} ExhaustedEffect(cfg: Config, n: nat)
    requires n <= Max0(cfg.queueFullRetries)
    ensures Legal(cfg, ExhaustedTimes(cfg, n))
    ensures
      var s := Final(cfg, ExhaustedTimes(cfg, n));
      s.outer == Ready && |s.chains| == n && |s.sent| == n * (1 + Max0(cfg.timeoutRetries))
  {
    if n > 0 {
      var t := Max0(cfg.timeoutRetries);
      ExhaustedEffect(cfg, n - 1);
      var r0 := ExhaustedTimes(cfg, n - 1);
      var r1 := Then(r0, NewChain);
      assert Legal(cfg, r1);
      TimedOutEffect(cfg, r1, n - 1, t);
      var r2 := TimedOut(r1, n - 1, t);
      var r3 := Then(r2, Complete(n - 1, QueueFull));
      assert Legal(cfg, r3);
      var r4 := Then(r3, Decide(n - 1));
      assert Legal(cfg, r4);
      assert n * (1 + t) == (n - 1) * (1 + t) + (1 + t);
    }
  }

  /** For every setting there is a run with exactly Q * (1 + max(0, T)) submissions. */
  lemma BoundIsReached(cfg: Config) returns (run: Run)
    ensures Legal(cfg, run) && Final(cfg, run).outer == Returned(QueueFull)
    ensures |Final(cfg, run).sent| == Max0(cfg.queueFullRetries) * (1 + Max0(cfg.timeoutRetries))
  {
    var q := Max0(cfg.queueFullRetries);
    ExhaustedEffect(cfg, q);
    run := Then(ExhaustedTimes(cfg, q), GiveUp);
  }
}
