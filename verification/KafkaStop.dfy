/** What `stop` leaves behind: the last commit attempt on a partition is its last request,
    on every run over a set of topics exactly when the waiting keys tell the partitions of
    those topics apart. */
module KafkaStop {
  import opened KafkaConsumerSpec
  import opened KafkaOwnership
  import opened KafkaCommitOrder
  import opened KafkaFlushRate
  import WaitingKey

  /** The key function of the consumer */
  function QbusKey(m: Message): string {
    WaitingKey.Key(m.topic, m.partition)
  }

  datatype Kind = Polls | Requests | Commits

  ghost predicate IsKind(a: Act, kind: Kind) {
    match kind
    case Polls => a.Poll? && a.m.ok
    case Requests => a.Request?
    case Commits => a.Commit?
  }

  /** The message of the last act of a kind on a partition */
  ghost function LastOn(t: seq<Act>, kind: Kind, topic: string, partition: int): Option<Message> {
    if t == [] then None
    else
      var a := t[|t| - 1];
      if IsKind(a, kind) && a.m.topic == topic && a.m.partition == partition then Some(a.m)
      else LastOn(t[..|t| - 1], kind, topic, partition)
  }

  ghost predicate Of(t: seq<Act>, kind: Kind, m: Message) {
    match kind
    case Polls => Poll(m) in t && m.ok
    case Requests => Request(m) in t
    case Commits => Commit(m) in t
  }

  lemma OrderedPrefix(cfg: Config, t: seq<Act>, n: nat)
    requires Ordered(cfg, t) && n <= |t|
    ensures Ordered(cfg, t[..n])
  {
    forall j | 0 <= j < n ensures OrderedNext(cfg, t[..n][..j], t[..n][j]) {
      assert t[..n][..j] == t[..j];
    }
  }

  lemma OfSnoc(t: seq<Act>, kind: Kind, m: Message)
    requires |t| > 0
    ensures Of(t, kind, m) <==> Of(t[..|t| - 1], kind, m) || (IsKind(t[|t| - 1], kind) && t[|t| - 1].m == m)
  {
    assert t == t[..|t| - 1] + [t[|t| - 1]];
  }

  /** The last one is the one with the greatest serial number. */
  lemma {:induction false} LastIsGreatest(cfg: Config, t: seq<Act>, kind: Kind, topic: string, partition: int, m: Message)
    requires Ordered(cfg, t) && KeyedByPartition(cfg)
    requires Of(t, kind, m) && m.topic == topic && m.partition == partition
    ensures
      var last := LastOn(t, kind, topic, partition);
      && last.Some? && Of(t, kind, last.value) && SamePartition(last.value, m)
      && m.serial <= last.value.serial && (m.serial == last.value.serial ==> m == last.value)
  {
    var n := |t| - 1;
    var a := t[n];
    OfSnoc(t, kind, m);
    assert OrderedNext(cfg, t[..n], a);
    if IsKind(a, kind) && a.m.topic == topic && a.m.partition == partition {
      assert SamePartition(a.m, m);
      OfSnoc(t, kind, a.m);
    } else {
      OrderedPrefix(cfg, t, n);
      LastIsGreatest(cfg, t[..n], kind, topic, partition, m);
      OfSnoc(t, kind, LastOn(t[..n], kind, topic, partition).value);
    }
  }

  lemma {:induction false} NoneLast(t: seq<Act>, kind: Kind, topic: string, partition: int)
    ensures LastOn(t, kind, topic, partition).Some? ==>
      var m := LastOn(t, kind, topic, partition).value;
      Of(t, kind, m) && m.topic == topic && m.partition == partition
  {
    if t != [] {
      NoneLast(t[..|t| - 1], kind, topic, partition);
      var last := LastOn(t, kind, topic, partition);
      if last.Some? { OfSnoc(t, kind, last.value); }
    }
  }

  ghost predicate Reaches(t: seq<Act>, kind: Kind, m: Message) {
    exists c :: Of(t, kind, c) && SamePartition(c, m) && m.serial <= c.serial
  }

  lemma ReachedLast(cfg: Config, t: seq<Act>, kind: Kind, m: Message)
    requires Ordered(cfg, t) && KeyedByPartition(cfg) && Reaches(t, kind, m)
    ensures
      var last := LastOn(t, kind, m.topic, m.partition);
      last.Some? && m.serial <= last.value.serial && (Of(t, kind, m) && m.serial == last.value.serial ==> m == last.value)
  {
    var c :| Of(t, kind, c) && SamePartition(c, m) && m.serial <= c.serial;
    LastIsGreatest(cfg, t, kind, m.topic, m.partition, c);
    if Of(t, kind, m) {
      LastIsGreatest(cfg, t, kind, m.topic, m.partition, m);
    }
  }

  /** If the last `a` is reached by some `b`, and the last `b` is an `a`, they agree. */
  lemma SameLast(cfg: Config, t: seq<Act>, a: Kind, b: Kind, topic: string, partition: int)
    requires Ordered(cfg, t) && KeyedByPartition(cfg)
    requires LastOn(t, b, topic, partition).Some? ==> Of(t, a, LastOn(t, b, topic, partition).value)
    requires LastOn(t, a, topic, partition).Some? ==> Reaches(t, b, LastOn(t, a, topic, partition).value)
    ensures LastOn(t, a, topic, partition) == LastOn(t, b, topic, partition)
  {
    var la, lb := LastOn(t, a, topic, partition), LastOn(t, b, topic, partition);
    NoneLast(t, a, topic, partition);
    NoneLast(t, b, topic, partition);
    if la.Some? {
      ReachedLast(cfg, t, b, la.value);
    }
    if lb.Some? {
      assert Reaches(t, a, lb.value);
      ReachedLast(cfg, t, a, lb.value);
    }
  }

  /** The requested messages that share a waiting key are of one partition. */
  ghost predicate RequestsApart(cfg: Config, t: seq<Act>) {
    forall a, b :: Request(a) in t && Request(b) in t && KeyOf(cfg, a) == KeyOf(cfg, b) ==> SamePartition(a, b)
  }

  /** What holds of the trace while no slot is occupied */
  lemma SettledTrace(cfg: Config, run: Run)
    requires Legal(cfg, run) && Final(cfg, run).slots == map[]
    ensures Ordered(cfg, Final(cfg, run).trace)
    ensures forall m :: Commit(m) in Final(cfg, run).trace ==> Request(m) in Final(cfg, run).trace
    ensures forall m :: Request(m) in Final(cfg, run).trace ==> CommittedUpTo(cfg, Final(cfg, run).trace, m)
  {
    RunSorted(cfg, run);
    var s := Final(cfg, run);
    CommitsWereRequested(cfg, s.trace);
    forall m | Request(m) in s.trace ensures CommittedUpTo(cfg, s.trace, m) {
      assert InReach(cfg, s, m);
    }
  }

  lemma RequestReached(cfg: Config, t: seq<Act>, m: Message)
    requires RequestsApart(cfg, t) && Request(m) in t && CommittedUpTo(cfg, t, m)
    requires forall c :: Commit(c) in t ==> Request(c) in t
    ensures Reaches(t, Commits, m)
  {
    var c :| Commit(c) in t && KeyOf(cfg, c) == KeyOf(cfg, m) && m.serial <= c.serial;
    assert Of(t, Commits, c);
  }

  lemma SettledKeepsUp(cfg: Config, run: Run, topic: string, partition: int)
    requires Legal(cfg, run) && Final(cfg, run).slots == map[]
    requires KeyedByPartition(cfg) && RequestsApart(cfg, Final(cfg, run).trace)
    ensures LastOn(Final(cfg, run).trace, Commits, topic, partition) == LastOn(Final(cfg, run).trace, Requests, topic, partition)
  {
    SettledTrace(cfg, run);
    var t := Final(cfg, run).trace;
    NoneLast(t, Requests, topic, partition);
    NoneLast(t, Commits, topic, partition);
    var last := LastOn(t, Requests, topic, partition);
    if last.Some? {
      RequestReached(cfg, t, last.value);
    }
    SameLast(cfg, t, Requests, Commits, topic, partition);
  }

  /** After `stop` the last commit attempt on each partition is its last request. */
  lemma StopCommitsTheLastRequest(cfg: Config, run: Run, topic: string, partition: int)
    requires Legal(cfg, run) && Final(cfg, run).phase.Closing?
    requires KeyedByPartition(cfg) && RequestsApart(cfg, Final(cfg, run).trace)
    ensures LastOn(Final(cfg, run).trace, Commits, topic, partition) == LastOn(Final(cfg, run).trace, Requests, topic, partition)
  {
    RunKeeps(cfg, run);
    SettledKeepsUp(cfg, run, topic, partition);
  }

  lemma FlushEmptiesSlots(cfg: Config, run: Run, e: Event)
    requires Legal(cfg, Then(run, e)) && MustFlush(cfg, run, e)
    ensures Final(cfg, Then(run, e)).slots == map[]
  {
    var s := Final(cfg, run);
    RunKeeps(cfg, run);
    LastMsIsLatest(cfg, run);
    if s.phase.Closing? {
      FlushNothing(s, e.order);
    } else {
      FlushKeeps(cfg, s, !e.TimedFlush?, e.now, e.order);
    }
  }

  /** So it is whenever the partitions are about to be taken away, and every time the commit
      interval has passed since the last flush: nothing requested waits any longer. */
  lemma FlushCommitsTheLastRequest(cfg: Config, run: Run, e: Event, topic: string, partition: int)
    requires Legal(cfg, Then(run, e)) && MustFlush(cfg, run, e)
    requires KeyedByPartition(cfg) && RequestsApart(cfg, Final(cfg, Then(run, e)).trace)
    ensures
      var t := Final(cfg, Then(run, e)).trace;
      LastOn(t, Commits, topic, partition) == LastOn(t, Requests, topic, partition)
  {
    FlushEmptiesSlots(cfg, run, e);
    SettledKeepsUp(cfg, Then(run, e), topic, partition);
  }

  /** In SDK-commit mode that is the last message polled from the partition. */
  lemma StopCommitsTheLastPolled(cfg: Config, run: Run, topic: string, partition: int)
    requires Legal(cfg, run) && Final(cfg, run).phase.Closing? && !cfg.autoCommit && !cfg.userCommit
    requires KeyedByPartition(cfg) && RequestsApart(cfg, Final(cfg, run).trace)
    ensures LastOn(Final(cfg, run).trace, Commits, topic, partition) == LastOn(Final(cfg, run).trace, Polls, topic, partition)
  {
    StopCommitsTheLastRequest(cfg, run, topic, partition);
    RunSorted(cfg, run);
    var t := Final(cfg, run).trace;
    NoneLast(t, Polls, topic, partition);
    NoneLast(t, Requests, topic, partition);
    var p, r := LastOn(t, Polls, topic, partition), LastOn(t, Requests, topic, partition);
    if p.Some? {
      RequestedByTheSdk(cfg, run, p.value);
      assert Of(t, Requests, p.value);
    }
    if r.Some? {
      RequestedWasPolled(cfg, run, r.value);
    }
    SameLast(cfg, t, Polls, Requests, topic, partition);
  }

  // ---- Exactly when: the condition on the topic names ----

  function QbusConfig(pull: bool, autoCommit: bool, userCommit: bool, intervalMs: int): Config {
    Config(pull, autoCommit, userCommit, intervalMs, QbusKey)
  }

  lemma QbusKeys(pull: bool, autoCommit: bool, userCommit: bool, intervalMs: int)
    ensures forall m :: KeyOf(QbusConfig(pull, autoCommit, userCommit, intervalMs), m) == QbusKey(m)
    ensures KeyedByPartition(QbusConfig(pull, autoCommit, userCommit, intervalMs))
  {
  }

  /** The accepted messages are of these topics and of real partitions. */
  ghost predicate Over(t: seq<Act>, topics: set<string>) {
    forall m :: Poll(m) in t && m.ok ==> m.topic in topics && 0 <= m.partition < WaitingKey.PARTITIONS
  }

  ghost predicate StopKeepsUp(cfg: Config, run: Run)
    requires Legal(cfg, run)
  {
    forall topic, partition ::
      LastOn(Final(cfg, run).trace, Commits, topic, partition) == LastOn(Final(cfg, run).trace, Requests, topic, partition)
  }

  ghost predicate StopAlwaysKeepsUp(topics: set<string>) {
    forall pull: bool, user: bool, interval: int, run: Run ::
      var cfg := QbusConfig(pull, false, user, interval);
      Legal(cfg, run) && Final(cfg, run).phase.Closing? && Over(Final(cfg, run).trace, topics) ==> StopKeepsUp(cfg, run)
  }

  /** Whatever timed and forced flushes came before, `stop` leaves every partition committed
      up to its last request on every run over some topics exactly when no topic name is
      another one followed by a positive number (see `KeysDistinctIff`). */
  lemma StopAlwaysKeepsUpIff(topics: set<string>)
    ensures StopAlwaysKeepsUp(topics) <==> WaitingKey.KeysDistinct(topics)
  {
    WaitingKey.KeysDistinctIff(topics);
    if WaitingKey.KeysDistinct(topics) {
      forall pull: bool, user: bool, interval: int, run: Run
        | var cfg := QbusConfig(pull, false, user, interval);
          Legal(cfg, run) && Final(cfg, run).phase.Closing? && Over(Final(cfg, run).trace, topics)
        ensures StopKeepsUp(QbusConfig(pull, false, user, interval), run)
      {
        DistinctKeysKeepUp(topics, QbusConfig(pull, false, user, interval), run);
      }
    } else {
      var a, b, n :| a in topics && b in topics && WaitingKey.Extends(a, b, n);
      var run := CollidingRun(a, b, n);
      var cfg := QbusConfig(false, false, false, 200);
      var t := Final(cfg, run).trace;
      assert LastOn(t, Commits, a, 10 * n) != LastOn(t, Requests, a, 10 * n);
      assert Over(t, topics);
    }
  }

  lemma DistinctKeysKeepUp(topics: set<string>, cfg: Config, run: Run)
    requires WaitingKey.KeysDistinct(topics) && cfg == QbusConfig(cfg.pull, false, cfg.userCommit, cfg.intervalMs)
    requires Legal(cfg, run) && Final(cfg, run).phase.Closing? && Over(Final(cfg, run).trace, topics)
    ensures StopKeepsUp(cfg, run)
  {
    QbusKeys(cfg.pull, false, cfg.userCommit, cfg.intervalMs);
    var t := Final(cfg, run).trace;
    forall x, y | Request(x) in t && Request(y) in t && KeyOf(cfg, x) == KeyOf(cfg, y) ensures SamePartition(x, y) {
      RequestedWasPolled(cfg, run, x);
      RequestedWasPolled(cfg, run, y);
      assert WaitingKey.Key(x.topic, x.partition) == WaitingKey.Key(y.topic, y.partition);
    }
    forall topic, partition ensures LastOn(t, Commits, topic, partition) == LastOn(t, Requests, topic, partition) {
      StopCommitsTheLastRequest(cfg, run, topic, partition);
    }
  }

  lemma RequestedWasPolled(cfg: Config, run: Run, m: Message)
    requires Legal(cfg, run) && Request(m) in Final(cfg, run).trace
    ensures Poll(m) in Final(cfg, run).trace && m.ok
  {
    var t := Final(cfg, run).trace;
    var j :| 0 <= j < |t| && t[j] == Request(m);
    ActWasPolled(cfg, run, j);
  }

  /** One iteration of the poll loop in SDK-commit mode, with a flush that does not fire. */
  function Iteration(run: Run, m: Message): Run {
    Then(Then(Then(Then(Then(run, Polled(m)), Keep), Delivered), Return), TimedFlush(0, [QbusKey(m)]))
  }

  lemma IterationEffect(cfg: Config, run: Run, m: Message)
    requires cfg == QbusConfig(false, false, false, 200) && Legal(cfg, run)
    requires
      var s := Final(cfg, run);
      s.phase.Polling? && s.lastMs == 0 && m.serial == s.polls && m.ok && s.slots.Keys <= {QbusKey(m)}
    ensures Legal(cfg, Iteration(run, m))
    ensures
      var s := Final(cfg, run);
      Final(cfg, Iteration(run, m)) ==
        s.(polls := s.polls + 1, slots := s.slots[QbusKey(m) := m],
           trace := s.trace + [Poll(m)] + Displaced(s, QbusKey(m)) + [Request(m)] + [Deliver(m)])
  {
    var s, k := Final(cfg, run), QbusKey(m);
    assert KeyOf(cfg, m) == k;
    var r1 := Then(run, Polled(m));
    var s1 := s.(phase := Hand(m), polls := s.polls + 1, trace := s.trace + [Poll(m)]);
    assert Legal(cfg, r1) && Final(cfg, r1) == s1;
    var r2 := Then(r1, Keep);
    var s2 := s1.(phase := Kept(m), slots := s.slots[k := m], trace := s1.trace + Displaced(s, k) + [Request(m)]);
    assert Legal(cfg, r2) && Final(cfg, r2) == s2;
    var r3 := Then(r2, Delivered);
    var s3 := s2.(phase := Callback(m), trace := s2.trace + [Deliver(m)]);
    assert Legal(cfg, r3) && Final(cfg, r3) == s3;
    var r4 := Then(r3, Return);
    assert s3.trace + [] == s3.trace;
    assert Legal(cfg, r4) && Final(cfg, r4) == s3.(phase := Flushing);
    assert s2.slots.Keys <= {k};
  }

  /** The loop ends, no timed flush fires, and `stop` runs. */
  function Stopping(run: Run, key: string): Run {
    Then(Then(Then(Then(run, Exit), TimedFlush(0, [key])), ForcedFlush(0, [key])), Clear([]))
  }

  lemma StoppingEffect(cfg: Config, run: Run, m: Message)
    requires cfg == QbusConfig(false, false, false, 200) && Legal(cfg, run)
    requires
      var s := Final(cfg, run);
      s.phase.Polling? && s.lastMs == 0 && s.slots == map[QbusKey(m) := m] && s.vecs == map[]
    ensures
      var r := Stopping(run, QbusKey(m));
      && Legal(cfg, r) && Final(cfg, r).phase.Closing?
      && Final(cfg, r).trace == Final(cfg, run).trace + [Commit(m), Destroy(m)]
  {
    var s, k := Final(cfg, run), QbusKey(m);
    var r1 := Then(run, Exit);
    assert Legal(cfg, r1) && Final(cfg, r1) == s.(phase := Exiting);
    var r2 := Then(r1, TimedFlush(0, [k]));
    assert Legal(cfg, r2) && Final(cfg, r2) == s.(phase := Joined);
    var r3 := Then(r2, ForcedFlush(0, [k]));
    FlushOneSlot(s.(phase := Joined), k);
    assert Legal(cfg, r3) && Final(cfg, r3).phase.Drained? && Final(cfg, r3).vecs == s.vecs;
    assert Final(cfg, r3).trace == s.trace + [Commit(m), Destroy(m)];
    assert s.vecs.Keys == {};
  }

  lemma FlushOneSlot(s: State, k: string)
    ensures FlushSlots(s, [k]) == FlushOne(s, k)
  {
    assert [k][..0] == [];
  }

  /** Two messages with one key, polled between two flushes: the second displaces the first. */
  lemma CollidingPolls(cfg: Config, x: Message, y: Message) returns (run: Run)
    requires cfg == QbusConfig(false, false, false, 200) && QbusKey(x) == QbusKey(y)
    requires x.serial == 0 && y.serial == 1 && x.ok && y.ok
    ensures Legal(cfg, run)
    ensures Final(cfg, run) == State(Polling, 2, map[QbusKey(y) := y], map[], 0,
      [Poll(x), Request(x), Deliver(x), Poll(y), Destroy(x), Request(y), Deliver(y)])
  {
    var first := Iteration(Start, x);
    IterationEffect(cfg, Start, x);
    assert Final(cfg, first).trace == [Poll(x), Request(x), Deliver(x)];
    run := Iteration(first, y);
    IterationEffect(cfg, first, y);
    assert Final(cfg, run).slots == map[QbusKey(y) := y];
  }

  /** Two topics whose keys collide, one message each between two flushes: the first one's
      partition is never committed. */
  lemma CollidingRun(a: string, b: string, n: int) returns (run: Run)
    requires WaitingKey.Extends(a, b, n)
    ensures
      var cfg := QbusConfig(false, false, false, 200);
      && Legal(cfg, run) && Final(cfg, run).phase.Closing?
      && Over(Final(cfg, run).trace, {a, b})
      && LastOn(Final(cfg, run).trace, Requests, a, 10 * n).Some?
      && LastOn(Final(cfg, run).trace, Commits, a, 10 * n) == None
  {
    var cfg := QbusConfig(false, false, false, 200);
    WaitingKey.ExtensionCollides(a, b, n);
    var x, y := Message(0, a, 10 * n, 7, true), Message(1, b, 0, 3, true);
    var polled := CollidingPolls(cfg, x, y);
    run := Stopping(polled, QbusKey(y));
    StoppingEffect(cfg, polled, y);
    CollidingTrace(cfg, run, x, y);
  }

  lemma CollidingTrace(cfg: Config, run: Run, x: Message, y: Message)
    requires Legal(cfg, run) && KeyedByPartition(cfg) && !SamePartition(x, y)
    requires Final(cfg, run).trace ==
      [Poll(x), Request(x), Deliver(x), Poll(y), Destroy(x), Request(y), Deliver(y)] + [Commit(y), Destroy(y)]
    ensures LastOn(Final(cfg, run).trace, Requests, x.topic, x.partition).Some?
    ensures LastOn(Final(cfg, run).trace, Commits, x.topic, x.partition) == None
  {
    var t := Final(cfg, run).trace;
    assert t[1] == Request(x);
    LastIsRequest(cfg, run, x);
    NoneLast(t, Commits, x.topic, x.partition);
  }

  lemma LastIsRequest(cfg: Config, run: Run, m: Message)
    requires Legal(cfg, run) && KeyedByPartition(cfg) && Request(m) in Final(cfg, run).trace
    ensures LastOn(Final(cfg, run).trace, Requests, m.topic, m.partition).Some?
  {
    RunSorted(cfg, run);
    LastIsGreatest(cfg, Final(cfg, run).trace, Requests, m.topic, m.partition, m);
  }
}
