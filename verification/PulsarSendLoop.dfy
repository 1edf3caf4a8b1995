/** The callback and the queue-full loop themselves.  Whatever completes before the loop reads
    the shared cell is given as an argument; what the loop submits and returns is what the
    state machine of `PulsarSend` does on that run. */
module PulsarSendLoop {
  import opened PulsarSend

  class ResultCell {
    var value: Result

    constructor ()
      ensures value == Ok
    {
      value := Ok;
    }
  }

  class RetryableSendCallback {
    const cell: ResultCell
    const maxRetryCount: int
    var retryCount: nat
    const payload: string
    const key: string

    /** A new callback comes with a cell of its own that reads Ok. */
    constructor (maxRetryCount: int, retryCount: nat, payload: string, key: string)
      ensures fresh(cell) && cell.value == Ok
      ensures this.maxRetryCount == maxRetryCount && this.retryCount == retryCount
      ensures this.payload == payload && this.key == key
    {
      this.cell := new ResultCell();
      this.maxRetryCount, this.retryCount := maxRetryCount, retryCount;
      this.payload, this.key := payload, key;
    }

    /** A copy shares the cell and carries the count along. */
    constructor Copy(from: RetryableSendCallback)
      ensures cell == from.cell && maxRetryCount == from.maxRetryCount && retryCount == from.retryCount
      ensures payload == from.payload && key == from.key
    {
      cell, maxRetryCount, retryCount := from.cell, from.maxRetryCount, from.retryCount;
      payload, key := from.payload, from.key;
    }

    /** The completion: writes the shared cell, and on a timeout with retries left hands a
        copy of this callback, with the incremented count and the same cell, to a new send. */
    method Invoke(result: Result) returns (again: RetryableSendCallback?)
      modifies this, cell
      ensures cell.value == result
      ensures again != null <==> result == Timeout && old(retryCount) < maxRetryCount
      ensures again != null ==>
        && fresh(again) && again.cell == cell && again.maxRetryCount == maxRetryCount
        && again.retryCount == old(retryCount) + 1 && again.payload == payload && again.key == key
      ensures retryCount == old(retryCount) + if again != null then 1 else 0
    {
      cell.value := result;
      again := null;
      if result == Timeout && retryCount < maxRetryCount {
        retryCount := retryCount + 1;
        again := new RetryableSendCallback.Copy(this);
      }
    }
  }

  /** The live copy of the newest chain, as the state machine sees it */
  ghost predicate Tracks(cfg: Config, run: Run, cell: ResultCell, copy: RetryableSendCallback?)
    reads cell, copy
  {
    && Legal(cfg, run)
    && var s := Final(cfg, run);
    && s.outer == Sent && s.chains != []
    && var c := s.chains[|s.chains| - 1];
    && c.cell == cell.value
    && (copy != null <==> c.status.InFlight?)
    && (copy == null ==> c.status == Done)
    && (copy != null ==>
          copy.cell == cell && copy.retryCount == c.retries && copy.maxRetryCount == cfg.timeoutRetries
          && copy.payload == cfg.payload && copy.key == cfg.key)
  }

  /** The newest chain's copies complete one after the other with the given results; what is
      left when none is in flight any more is not used. */
  ghost function Completed(cfg: Config, run: Run, results: seq<Result>): (r: Run)
    requires Legal(cfg, run) && Final(cfg, run).outer == Sent && Final(cfg, run).chains != []
    ensures Legal(cfg, r) && Final(cfg, r).outer == Sent && |Final(cfg, r).chains| == |Final(cfg, run).chains|
    decreases |results|
  {
    var c := |Final(cfg, run).chains| - 1;
    if results == [] || !Final(cfg, run).chains[c].status.InFlight? then run
    else
      var w := Then(run, Complete(c, results[0]));
      assert Legal(cfg, w);
      Completed(cfg, Then(w, Decide(c)), results[1..])
  }

  /** Has a callback just written this result, without having decided about a resubmission? */
  datatype Written = NotYet | Wrote(result: Result)

  /** What completes before the loop reads the cell: whole callbacks, and possibly one more
      that has only written the cell by then. */
  datatype Early = Early(results: seq<Result>, written: Written)

  ghost function HalfCompleted(cfg: Config, run: Run, w: Written): (r: Run)
    requires Legal(cfg, run) && Final(cfg, run).outer == Sent && Final(cfg, run).chains != []
    ensures Legal(cfg, r) && Final(cfg, r).outer == Sent && |Final(cfg, r).chains| == |Final(cfg, run).chains|
  {
    var c := |Final(cfg, run).chains| - 1;
    if w.Wrote? && Final(cfg, run).chains[c].status.InFlight? then Then(run, Complete(c, w.result)) else run
  }

  /** One iteration: a submission, the completions before the read, and the read */
  ghost function OnceRun(cfg: Config, start: Run, early: Early): (r: Run)
    requires Legal(cfg, start) && Enabled(cfg, Final(cfg, start), NewChain)
    ensures Legal(cfg, r) && |Final(cfg, r).chains| == |Final(cfg, start).chains| + 1
  {
    var n := Then(start, NewChain);
    assert Legal(cfg, n);
    Then(HalfCompleted(cfg, Completed(cfg, n, early.results), early.written), Read)
  }

  /** What the cell reads after early completions: each timeout with retries left starts the
      next copy, anything else ends the chain. */
  function CellAfter(results: seq<Result>, left: int, written: Written, cell: Result): Result {
    if results == [] then (if written.Wrote? then written.result else cell)
    else if results[0] == Timeout && left > 0 then CellAfter(results[1..], left - 1, written, Timeout)
    else results[0]
  }

  /** The early resubmissions */
  function Resubmitted(results: seq<Result>, left: int): nat {
    if results != [] && results[0] == Timeout && left > 0 then 1 + Resubmitted(results[1..], left - 1) else 0
  }

  /** A copy completes, and its callback decides. */
  lemma StepEffect(cfg: Config, run: Run, c: nat, r: Result)
    requires Legal(cfg, run) && c < |Final(cfg, run).chains| && Final(cfg, run).chains[c].status.InFlight?
    ensures Legal(cfg, Then(run, Complete(c, r))) && Legal(cfg, Then(Then(run, Complete(c, r)), Decide(c)))
    ensures
      var s, n := Final(cfg, run), Final(cfg, Then(Then(run, Complete(c, r)), Decide(c)));
      var again := r == Timeout && s.chains[c].retries < cfg.timeoutRetries;
      && n.outer == s.outer && |n.chains| == |s.chains|
      && n.chains[c] == (if again then Chain(r, s.chains[c].retries + 1, InFlight) else Chain(r, s.chains[c].retries, Done))
      && n.sent == s.sent + if again then [Message(cfg)] else []
  {
    var s := Final(cfg, run);
    assert s.sent + [] == s.sent;
    assert Legal(cfg, Then(run, Complete(c, r)));
  }

  lemma {:induction false} CompletedEffect(cfg: Config, run: Run, results: seq<Result>, w: Written)
    requires Legal(cfg, run) && Final(cfg, run).outer == Sent && Final(cfg, run).chains != []
    requires Final(cfg, run).chains[|Final(cfg, run).chains| - 1].status.InFlight?
    ensures
      var s, n := Final(cfg, run), Final(cfg, HalfCompleted(cfg, Completed(cfg, run, results), w));
      var c := |s.chains| - 1;
      var left := cfg.timeoutRetries - s.chains[c].retries;
      && n.chains[c].cell == CellAfter(results, left, w, s.chains[c].cell)
      && |n.sent| == |s.sent| + Resubmitted(results, left)
    decreases |results|
  {
    var c := |Final(cfg, run).chains| - 1;
    if results != [] {
      StepEffect(cfg, run, c, results[0]);
      var next := Then(Then(run, Complete(c, results[0])), Decide(c));
      assert Completed(cfg, run, results) == Completed(cfg, next, results[1..]);
      if Final(cfg, next).chains[c].status.InFlight? {
        CompletedEffect(cfg, next, results[1..], w);
      }
    }
  }

  lemma OnceEffect(cfg: Config, start: Run, early: Early)
    requires Legal(cfg, start) && Enabled(cfg, Final(cfg, start), NewChain)
    ensures
      var s, n := Final(cfg, start), Final(cfg, OnceRun(cfg, start, early));
      var r := CellAfter(early.results, cfg.timeoutRetries, early.written, Ok);
      && n.outer == (if r == QueueFull then Ready else Returned(r))
      && |n.sent| == |s.sent| + 1 + Resubmitted(early.results, cfg.timeoutRetries)
  {
    var n := Then(start, NewChain);
    assert Legal(cfg, n);
    CompletedEffect(cfg, n, early.results, early.written);
  }

  /** The result of the first iteration, from the i-th on, that does not find the queue full */
  function FirstNotFull(cfg: Config, early: seq<Early>, i: nat): Result
    decreases cfg.queueFullRetries - i
  {
    if i >= cfg.queueFullRetries then QueueFull
    else
      var r := CellAfter(EarlyAt(early, i).results, cfg.timeoutRetries, EarlyAt(early, i).written, Ok);
      if r == QueueFull then FirstNotFull(cfg, early, i + 1) else r
  }

  function EarlyAt(early: seq<Early>, i: nat): Early {
    if i < |early| then early[i] else Early([], NotYet)
  }

  /** The run of the loop from its i-th iteration on */
  ghost function LoopRun(cfg: Config, run: Run, early: seq<Early>): (r: Run)
    requires Legal(cfg, run) && Final(cfg, run).outer == Ready
    ensures Legal(cfg, r) && Final(cfg, r).outer.Returned?
    decreases cfg.queueFullRetries - |Final(cfg, run).chains|
  {
    var i := |Final(cfg, run).chains|;
    if i >= cfg.queueFullRetries then Then(run, GiveUp)
    else
      var r := OnceRun(cfg, run, EarlyAt(early, i));
      if Final(cfg, r).outer.Returned? then r else LoopRun(cfg, r, early)
  }

  /** The callbacks that complete before the loop reads the cell */
  method CompleteEarly(cfg: Config, first: RetryableSendCallback, results: seq<Result>, before: seq<Submission>, ghost start: Run)
    returns (copy: RetryableSendCallback?, sent: seq<Submission>, ghost run: Run)
    requires Tracks(cfg, start, first.cell, first) && before == Final(cfg, start).sent
    modifies first.cell, first
    ensures run == Completed(cfg, start, results) && sent == Final(cfg, run).sent
    ensures Tracks(cfg, run, first.cell, copy)
  {
    sent, run := before, start;
    copy := first;
    var i := 0;
    assert results[0..] == results;
    while i < |results| && copy != null
      invariant i <= |results| && Tracks(cfg, run, first.cell, copy) && sent == Final(cfg, run).sent
      invariant Completed(cfg, run, results[i..]) == Completed(cfg, start, results)
      invariant copy == first || copy == null || fresh(copy)
      decreases |results| - i
    {
      ghost var c := |Final(cfg, run).chains| - 1;
      assert results[i..][1..] == results[i + 1..];
      StepEffect(cfg, run, c, results[i]);
      var again := copy.Invoke(results[i]);
      run := Then(Then(run, Complete(c, results[i])), Decide(c));
      if again != null {
        sent := sent + [Submission(again.payload, again.key)];
      }
      copy := again;
      i := i + 1;
    }
  }

  /** That iteration in the code, with a fresh result cell */
  method SendOnce(cfg: Config, early: Early, before: seq<Submission>, ghost start: Run)
    returns (result: Result, sent: seq<Submission>)
    requires Legal(cfg, start) && Enabled(cfg, Final(cfg, start), NewChain) && before == Final(cfg, start).sent
    ensures
      var s := Final(cfg, OnceRun(cfg, start, early));
      sent == s.sent && s.outer == if result == QueueFull then Ready else Returned(result)
    ensures result == CellAfter(early.results, cfg.timeoutRetries, early.written, Ok)
    ensures |sent| == |before| + 1 + Resubmitted(early.results, cfg.timeoutRetries)
  {
    OnceEffect(cfg, start, early);
    var callback := new RetryableSendCallback(cfg.timeoutRetries, 0, cfg.payload, cfg.key);
    ghost var run := Then(start, NewChain);
    sent := before + [Submission(callback.payload, callback.key)];
    var copy: RetryableSendCallback?;
    copy, sent, run := CompleteEarly(cfg, callback, early.results, sent, run);
    if copy != null && early.written.Wrote? {
      copy.cell.value := early.written.result;
    }
    result := callback.cell.value;
  }

  /** `sendAsync`: the queue-full loop.  `early[i]` says what completes before iteration i's
      read.  The loop returns, and submits, what the state machine does on that run. */
  method SendAsync(cfg: Config, early: seq<Early>) returns (result: Result, sent: seq<Submission>)
    ensures
      var s := Final(cfg, LoopRun(cfg, Start, early));
      s.outer == Returned(result) && sent == s.sent
    ensures result == FirstNotFull(cfg, early, 0)
  {
    ghost var run := Start;
    sent := [];
    var i := 0;
    while i < cfg.queueFullRetries
      invariant 0 <= i <= Max0(cfg.queueFullRetries)
      invariant Legal(cfg, run) && Final(cfg, run).outer == Ready && |Final(cfg, run).chains| == i
      invariant Final(cfg, run).sent == sent
      invariant LoopRun(cfg, run, early) == LoopRun(cfg, Start, early)
      invariant FirstNotFull(cfg, early, i) == FirstNotFull(cfg, early, 0)
    {
      result, sent := SendOnce(cfg, EarlyAt(early, i), sent, run);
      run := OnceRun(cfg, run, EarlyAt(early, i));
      if result != QueueFull {
        return;
      }
      i := i + 1;
    }
    result := QueueFull;
  }

  /** `produce`: success means exactly that the loop returned Ok. */
  method Produce(initialized: bool, cfg: Config, early: seq<Early>) returns (ok: bool, sent: seq<Submission>)
    ensures !initialized ==> !ok && sent == []
    ensures initialized ==>
      var s := Final(cfg, LoopRun(cfg, Start, early));
      (ok <==> s.outer == Returned(Ok)) && (ok <==> FirstNotFull(cfg, early, 0) == Ok) && sent == s.sent
  {
    if !initialized {
      return false, [];
    }
    var result: Result;
    result, sent := SendAsync(cfg, early);
    ok := result == Ok;
  }
}
