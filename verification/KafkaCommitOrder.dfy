/** What gets committed, and in which order: commits follow the poll order per waiting key,
    are of requested messages only, and come after every earlier message was delivered. */
module KafkaCommitOrder {
  import opened KafkaConsumerSpec
  import opened KafkaOwnership

  // ---- Order of the acts on a key ----

  ghost predicate CommitsBelow(cfg: Config, t: seq<Act>, k: string, bound: nat) {
    forall m :: Commit(m) in t && KeyOf(cfg, m) == k ==> m.serial < bound
  }

  ghost predicate RequestsBelow(cfg: Config, t: seq<Act>, k: string, bound: nat) {
    forall m :: Request(m) in t && KeyOf(cfg, m) == k ==> m.serial < bound
  }

  /** Everything polled and accepted has been delivered. */
  ghost predicate AllDelivered(t: seq<Act>) {
    forall m :: Poll(m) in t && m.ok ==> Deliver(m) in t
  }

  /** In the pull build a flush comes before the message is returned. */
  ghost predicate DeliveredFirst(cfg: Config, t: seq<Act>) {
    cfg.pull || AllDelivered(t)
  }

  /** When an act may follow a trace: polls, requests and commits come in serial order, a
      commit is of the newest request on its key, and only after all deliveries. */
  ghost predicate OrderedNext(cfg: Config, t: seq<Act>, a: Act) {
    match a
    case Poll(m) => forall x :: Poll(x) in t ==> x.serial < m.serial
    case Request(m) => m.ok && RequestsBelow(cfg, t, KeyOf(cfg, m), m.serial)
    case Commit(m) =>
      && Request(m) in t
      && CommitsBelow(cfg, t, KeyOf(cfg, m), m.serial)
      && RequestsBelow(cfg, t, KeyOf(cfg, m), m.serial + 1)
      && DeliveredFirst(cfg, t)
    case _ => true
  }

  ghost predicate Ordered(cfg: Config, t: seq<Act>) {
    forall j :: 0 <= j < |t| ==> OrderedNext(cfg, t[..j], t[j])
  }

  lemma OrderedSnoc(cfg: Config, t: seq<Act>, a: Act)
    requires Ordered(cfg, t) && OrderedNext(cfg, t, a)
    ensures Ordered(cfg, t + [a])
  {
    var u := t + [a];
    forall j | 0 <= j < |u| ensures OrderedNext(cfg, u[..j], u[j]) {
      assert u[..j] == if j < |t| then t[..j] else t;
    }
  }

  lemma {:induction false} OrderedQuietly(cfg: Config, t: seq<Act>, acts: seq<Act>)
    requires Ordered(cfg, t) && forall a :: a in acts ==> a.Destroy? || a.Deliver?
    ensures Ordered(cfg, t + acts)
  {
    if acts == [] {
      assert t + acts == t;
    } else {
      var n := |acts| - 1;
      OrderedQuietly(cfg, t, acts[..n]);
      assert acts[n] in acts;
      OrderedSnoc(cfg, t + acts[..n], acts[n]);
      assert t + acts == t + acts[..n] + [acts[n]];
    }
  }

  // ---- The invariant ----

  ghost predicate SlotsOrdered(cfg: Config, s: State) {
    forall k :: k in s.slots ==>
      && s.slots[k].ok && Request(s.slots[k]) in s.trace
      && CommitsBelow(cfg, s.trace, k, s.slots[k].serial)
      && RequestsBelow(cfg, s.trace, k, s.slots[k].serial + 1)
  }

  ghost predicate VecsOrdered(cfg: Config, s: State) {
    forall k, i :: k in s.vecs && 0 <= i < |s.vecs[k]| ==>
      && s.vecs[k][i].ok
      && CommitsBelow(cfg, s.trace, k, s.vecs[k][i].serial)
      && RequestsBelow(cfg, s.trace, k, s.vecs[k][i].serial)
  }

  /** No request is forgotten: its key's slot is at it or past it, or a commit is. */
  ghost predicate Covered(cfg: Config, s: State) {
    forall m :: Request(m) in s.trace ==> InReach(cfg, s, m)
  }

  ghost predicate InReach(cfg: Config, s: State, m: Message) {
    || (KeyOf(cfg, m) in s.slots && m.serial <= s.slots[KeyOf(cfg, m)].serial)
    || CommittedUpTo(cfg, s.trace, m)
  }

  ghost predicate CommittedUpTo(cfg: Config, t: seq<Act>, m: Message) {
    exists c :: Commit(c) in t && KeyOf(cfg, c) == KeyOf(cfg, m) && m.serial <= c.serial
  }

  ghost predicate Sorted(cfg: Config, s: State) {
    Ordered(cfg, s.trace) && SlotsOrdered(cfg, s) && VecsOrdered(cfg, s) && Covered(cfg, s)
  }

  ghost predicate RequestsUnder(t: seq<Act>, limit: nat) {
    forall m :: Request(m) in t || Commit(m) in t ==> m.serial < limit
  }

  /** The message that was polled but not yet handed to the user. */
  ghost predicate Undelivered(s: State, m: Message) {
    (s.phase.Hand? || s.phase.Kept?) && s.phase.m == m
  }

  ghost predicate OrderInv(cfg: Config, s: State) {
    && Sorted(cfg, s)
    && RequestsUnder(s.trace, Limit(s))
    && (cfg.pull || forall m :: Poll(m) in s.trace && m.ok ==> Deliver(m) in s.trace || Undelivered(s, m))
    && (s.phase.Hand? ==> forall x :: Poll(x) in s.trace ==> x.serial <= s.phase.m.serial)
  }

  // ---- Each operation keeps the order ----

  /** Acts that are neither requests nor commits leave every bound as it is. */
  lemma QuietKeeps(cfg: Config, s: State, n: State, acts: seq<Act>)
    requires Sorted(cfg, s) && n.slots == s.slots && n.vecs == s.vecs
    requires n.trace == s.trace + acts && Ordered(cfg, n.trace)
    requires forall a :: a in acts ==> !a.Request? && !a.Commit?
    ensures Sorted(cfg, n)
    ensures forall limit :: RequestsUnder(s.trace, limit) ==> RequestsUnder(n.trace, limit)
  {
    assert forall m :: Request(m) in n.trace <==> Request(m) in s.trace;
    assert forall m :: Commit(m) in n.trace <==> Commit(m) in s.trace;
    forall m | Request(m) in n.trace ensures InReach(cfg, n, m) {
      assert InReach(cfg, s, m);
    }
  }

  /** `u` has `m` committed on top of what `t` has. */
  ghost predicate CommitAdded(t: seq<Act>, u: seq<Act>, m: Message) {
    && (forall x :: Commit(x) in u <==> Commit(x) in t || x == m)
    && (forall x :: Request(x) in u <==> Request(x) in t)
  }

  lemma CommitSlotOthers(cfg: Config, s: State, k: string, n: State)
    requires SlotsOrdered(cfg, s) && VecsOrdered(cfg, s) && k in s.slots && KeyOf(cfg, s.slots[k]) == k
    requires k in s.vecs ==> forall i :: 0 <= i < |s.vecs[k]| ==> s.slots[k].serial < s.vecs[k][i].serial
    requires n.slots == s.slots - {k} && n.vecs == s.vecs && CommitAdded(s.trace, n.trace, s.slots[k])
    ensures SlotsOrdered(cfg, n) && VecsOrdered(cfg, n)
  {
  }

  lemma CommitSlotCovered(cfg: Config, s: State, k: string, n: State)
    requires Covered(cfg, s) && k in s.slots && KeyOf(cfg, s.slots[k]) == k
    requires n.slots == s.slots - {k} && CommitAdded(s.trace, n.trace, s.slots[k])
    ensures Covered(cfg, n)
  {
    forall x | Request(x) in n.trace ensures InReach(cfg, n, x) {
      assert InReach(cfg, s, x);
      assert Commit(s.slots[k]) in n.trace;
    }
  }

  lemma CommitMembers(t: seq<Act>, m: Message)
    ensures
      var u := t + [Commit(m), Destroy(m)];
      && CommitAdded(t, u, m)
      && (AllDelivered(t) ==> AllDelivered(u))
      && (forall limit: nat :: RequestsUnder(t, limit) && m.serial < limit ==> RequestsUnder(u, limit))
  {
    var u := t + [Commit(m), Destroy(m)];
    assert forall a: Act :: a in u <==> a in t || a == Commit(m) || a == Destroy(m);
  }

  lemma CommitOrdered(cfg: Config, t: seq<Act>, m: Message)
    requires Ordered(cfg, t) && OrderedNext(cfg, t, Commit(m))
    ensures Ordered(cfg, t + [Commit(m), Destroy(m)])
  {
    OrderedSnoc(cfg, t, Commit(m));
    var u := t + [Commit(m)];
    OrderedSnoc(cfg, u, Destroy(m));
    assert t + [Commit(m), Destroy(m)] == u + [Destroy(m)];
  }

  lemma FlushOneSorted(cfg: Config, s: State, k: string, limit: nat)
    requires Sorted(cfg, s) && Tidy(cfg, s, limit) && DeliveredFirst(cfg, s.trace) && RequestsUnder(s.trace, limit)
    ensures Sorted(cfg, FlushOne(s, k)) && DeliveredFirst(cfg, FlushOne(s, k).trace)
    ensures RequestsUnder(FlushOne(s, k).trace, limit)
  {
    if k in s.slots {
      var n := FlushOne(s, k);
      CommitOrdered(cfg, s.trace, s.slots[k]);
      CommitMembers(s.trace, s.slots[k]);
      CommitSlotOthers(cfg, s, k, n);
      CommitSlotCovered(cfg, s, k, n);
    }
  }

  lemma {:induction false} FlushSlotsSorted(cfg: Config, s: State, order: seq<string>, limit: nat)
    requires Good(cfg, s, limit, {}) && Sorted(cfg, s) && DeliveredFirst(cfg, s.trace) && RequestsUnder(s.trace, limit)
    ensures
      var n := FlushSlots(s, order);
      Sorted(cfg, n) && DeliveredFirst(cfg, n.trace) && RequestsUnder(n.trace, limit)
  {
    if order != [] {
      var p := order[..|order| - 1];
      FlushSlotsSorted(cfg, s, p, limit);
      FlushSlotsKeep(cfg, s, p, limit, {});
      FlushOneSorted(cfg, FlushSlots(s, p), order[|order| - 1], limit);
    }
  }

  /** `u` has `m` requested on top of what `t` has. */
  ghost predicate RequestAdded(t: seq<Act>, u: seq<Act>, m: Message) {
    && (forall x :: Commit(x) in u <==> Commit(x) in t)
    && (forall x :: Request(x) in u <==> Request(x) in t || x == m)
    && (forall x :: Poll(x) in u <==> Poll(x) in t)
    && (forall x :: Deliver(x) in u <==> Deliver(x) in t)
  }

  lemma RequestSorted(cfg: Config, s: State, n: State, m: Message)
    requires SlotsOrdered(cfg, s) && Covered(cfg, s) && m.ok
    requires RequestsBelow(cfg, s.trace, KeyOf(cfg, m), m.serial)
    requires CommitsBelow(cfg, s.trace, KeyOf(cfg, m), m.serial)
    requires KeyOf(cfg, m) in s.slots ==> s.slots[KeyOf(cfg, m)].serial < m.serial
    requires n.slots == s.slots[KeyOf(cfg, m) := m]
    requires RequestAdded(s.trace, n.trace, m)
    ensures SlotsOrdered(cfg, n) && Covered(cfg, n)
  {
    forall x | Request(x) in n.trace ensures InReach(cfg, n, x) {
      if x != m {
        assert InReach(cfg, s, x);
      }
    }
  }

  lemma QuietActs(t: seq<Act>, acts: seq<Act>)
    requires forall a :: a in acts ==> a.Destroy?
    ensures forall a: Act :: !a.Destroy? ==> (a in t + acts <==> a in t)
  {
  }

  lemma RequestOrdered(cfg: Config, s: State, m: Message, front: seq<Message>)
    requires Ordered(cfg, s.trace) && m.ok && RequestsBelow(cfg, s.trace, KeyOf(cfg, m), m.serial)
    ensures
      var u := s.trace + Displaced(s, KeyOf(cfg, m)) + [Request(m)] + DestroyAll(front);
      Ordered(cfg, u) && RequestAdded(s.trace, u, m)
  {
    var d := Displaced(s, KeyOf(cfg, m));
    var t := s.trace + d;
    OrderedQuietly(cfg, s.trace, d);
    QuietActs(s.trace, d);
    OrderedSnoc(cfg, t, Request(m));
    DestroyAllActs(front);
    OrderedQuietly(cfg, t + [Request(m)], DestroyAll(front));
    QuietActs(t + [Request(m)], DestroyAll(front));
  }

  lemma AddWaitCommitSorted(cfg: Config, s: State, m: Message)
    requires Sorted(cfg, s) && Tidy(cfg, s, m.serial) && RequestsUnder(s.trace, m.serial) && m.ok && s.vecs == map[]
    ensures Sorted(cfg, AddWaitCommit(cfg, s, m))
    ensures RequestsUnder(AddWaitCommit(cfg, s, m).trace, m.serial + 1)
  {
    var n := AddWaitCommit(cfg, s, m);
    RequestOrdered(cfg, s, m, []);
    assert n.trace == s.trace + Displaced(s, KeyOf(cfg, m)) + [Request(m)] + DestroyAll([]);
    RequestSorted(cfg, s, n, m);
  }

  lemma UserCommitVecs(cfg: Config, s: State, k: string, front: seq<Message>, m: Message, back: seq<Message>, limit: nat,
                       n: State)
    requires VecsOrdered(cfg, s) && Tidy(cfg, s, limit) && Cut(cfg, s, k, front, m, back)
    requires n.vecs == s.vecs[k := back] && RequestAdded(s.trace, n.trace, m)
    ensures VecsOrdered(cfg, n)
  {
    CutFacts(cfg, s, k, front, m, back, limit);
    forall q, i | q in n.vecs && 0 <= i < |n.vecs[q]|
      ensures n.vecs[q][i].ok && CommitsBelow(cfg, n.trace, q, n.vecs[q][i].serial)
      ensures RequestsBelow(cfg, n.trace, q, n.vecs[q][i].serial)
    {
      var was := if q == k then |front| + 1 + i else i;
      assert n.vecs[q][i] == s.vecs[q][was];
    }
  }

  lemma UserCommitSorted(cfg: Config, s: State, m: Message, limit: nat)
    requires Sorted(cfg, s) && Tidy(cfg, s, limit) && RequestsUnder(s.trace, limit) && Holds(cfg, s, m)
    ensures Sorted(cfg, UserCommit(cfg, s, m))
    ensures RequestsUnder(UserCommit(cfg, s, m).trace, limit)
    ensures RequestAdded(s.trace, UserCommit(cfg, s, m).trace, m)
  {
    var k := KeyOf(cfg, m);
    var n := UserCommit(cfg, s, m);
    var front, back := UserCommitEffect(cfg, s, m);
    assert s.vecs[k][|front|] == m;
    RequestOrdered(cfg, s, m, front);
    assert k in s.slots ==> s.slots[k].serial < m.serial;
    RequestSorted(cfg, s, n, m);
    UserCommitVecs(cfg, s, k, front, m, back, limit, n);
  }

  // ---- Every event keeps the order ----

  lemma FlushSorted(cfg: Config, s: State, force: bool, now: int, order: seq<string>)
    requires Inv(cfg, s) && OrderInv(cfg, s) && !s.phase.Hand? && !s.phase.Kept? && !s.phase.Callback?
    ensures
      var n := Flush(cfg, s, force, now, order);
      Sorted(cfg, n) && RequestsUnder(n.trace, s.polls) && DeliveredFirst(cfg, n.trace)
  {
    if s.phase.Closing? {
      FlushNothing(s, order);
    } else {
      FlushSlotsSorted(cfg, s, order, s.polls);
    }
  }

  lemma FlushPolls(s: State, order: seq<string>)
    ensures forall m :: Poll(m) in FlushSlots(s, order).trace <==> Poll(m) in s.trace
    ensures FlushSlots(s, order).polls == s.polls && FlushSlots(s, order).phase == s.phase
  {
  }

  lemma PolledSorted(cfg: Config, s: State, m: Message)
    requires Inv(cfg, s) && OrderInv(cfg, s) && Enabled(cfg, s, Polled(m))
    ensures OrderInv(cfg, Next(cfg, s, Polled(m)))
  {
    OrderedSnoc(cfg, s.trace, Poll(m));
    QuietKeeps(cfg, s, Next(cfg, s, Polled(m)), [Poll(m)]);
  }

  lemma DropSorted(cfg: Config, s: State)
    requires OrderInv(cfg, s) && Enabled(cfg, s, Drop) && s.phase.m.serial < s.polls
    ensures OrderInv(cfg, Next(cfg, s, Drop))
  {
    OrderedSnoc(cfg, s.trace, Destroy(s.phase.m));
    QuietKeeps(cfg, s, Next(cfg, s, Drop), [Destroy(s.phase.m)]);
  }

  lemma DeliveredSorted(cfg: Config, s: State)
    requires OrderInv(cfg, s) && Enabled(cfg, s, Delivered) && (s.phase.Hand? ==> s.phase.m.serial < s.polls)
    ensures OrderInv(cfg, Next(cfg, s, Delivered))
  {
    OrderedSnoc(cfg, s.trace, Deliver(s.phase.m));
    QuietKeeps(cfg, s, Next(cfg, s, Delivered), [Deliver(s.phase.m)]);
  }

  lemma ReturnSorted(cfg: Config, s: State)
    requires OrderInv(cfg, s) && Enabled(cfg, s, Return)
    ensures OrderInv(cfg, Next(cfg, s, Return))
  {
    var acts: seq<Act> := if cfg.autoCommit then [Destroy(s.phase.m)] else [];
    OrderedQuietly(cfg, s.trace, acts);
    QuietKeeps(cfg, s, Next(cfg, s, Return), acts);
  }

  lemma FlushEventSorted(cfg: Config, s: State, e: Event)
    requires Inv(cfg, s) && OrderInv(cfg, s) && Enabled(cfg, s, e)
    requires e.TimedFlush? || e.ForcedFlush? || e.Revoked?
    ensures OrderInv(cfg, Next(cfg, s, e))
  {
    FlushSorted(cfg, s, !e.TimedFlush?, e.now, e.order);
    FlushPolls(s, e.order);
  }

  lemma NextSorted(cfg: Config, s: State, e: Event)
    requires Inv(cfg, s) && OrderInv(cfg, s) && Enabled(cfg, s, e)
    ensures OrderInv(cfg, Next(cfg, s, e))
  {
    match e
    case Revoked(now, order) => FlushEventSorted(cfg, s, e);
    case PolledNothing =>
    case Polled(m) => PolledSorted(cfg, s, m);
    case Drop => DropSorted(cfg, s);
    case Keep => KeepSorted(cfg, s);
    case Delivered => DeliveredSorted(cfg, s);
    case CommitOffset(rd) => if cfg.userCommit { UserCommitOrdered(cfg, s, rd); }
    case Return => ReturnSorted(cfg, s);
    case TimedFlush(now, order) => FlushEventSorted(cfg, s, e);
    case Exit =>
    case ForcedFlush(now, order) => FlushEventSorted(cfg, s, e);
    case Clear(order) => ClearSorted(cfg, s, order);
  }

  lemma AddWaitDestroySorted(cfg: Config, s: State, m: Message)
    requires Sorted(cfg, s) && m.ok && RequestsUnder(s.trace, m.serial)
    ensures Sorted(cfg, AddWaitDestroy(cfg, s, m))
  {
    var n := AddWaitDestroy(cfg, s, m);
    assert VecsOrdered(cfg, n);
    forall x | Request(x) in n.trace ensures InReach(cfg, n, x) {
      assert InReach(cfg, s, x);
    }
  }

  lemma UserKeepSorted(cfg: Config, s: State)
    requires Inv(cfg, s) && OrderInv(cfg, s) && Enabled(cfg, s, Keep) && cfg.userCommit
    ensures OrderInv(cfg, Next(cfg, s, Keep))
  {
    AddWaitDestroySorted(cfg, s, s.phase.m);
    SortedPhase(cfg, AddWaitDestroy(cfg, s, s.phase.m), Next(cfg, s, Keep));
  }

  lemma SdkKeepSorted(cfg: Config, s: State)
    requires Inv(cfg, s) && OrderInv(cfg, s) && Enabled(cfg, s, Keep) && !cfg.userCommit && !cfg.autoCommit
    ensures OrderInv(cfg, Next(cfg, s, Keep))
  {
    AddWaitCommitSorted(cfg, s, s.phase.m);
    SortedPhase(cfg, AddWaitCommit(cfg, s, s.phase.m), Next(cfg, s, Keep));
  }

  lemma AutoKeepSorted(cfg: Config, s: State)
    requires Inv(cfg, s) && OrderInv(cfg, s) && Enabled(cfg, s, Keep) && cfg.autoCommit
    ensures OrderInv(cfg, Next(cfg, s, Keep))
  {
    OrderedSnoc(cfg, s.trace, Destroy(s.phase.m));
    QuietKeeps(cfg, s, Next(cfg, s, Keep), [Destroy(s.phase.m)]);
  }

  lemma KeepSorted(cfg: Config, s: State)
    requires Inv(cfg, s) && OrderInv(cfg, s) && Enabled(cfg, s, Keep)
    ensures OrderInv(cfg, Next(cfg, s, Keep))
  {
    if cfg.autoCommit {
      AutoKeepSorted(cfg, s);
    } else if cfg.userCommit {
      UserKeepSorted(cfg, s);
    } else {
      SdkKeepSorted(cfg, s);
    }
  }

  lemma SortedPhase(cfg: Config, s: State, n: State)
    requires Sorted(cfg, s) && n == s.(phase := n.phase)
    ensures Sorted(cfg, n)
  {
    forall x | Request(x) in n.trace ensures InReach(cfg, n, x) {
      assert InReach(cfg, s, x);
    }
  }

  lemma UserCommitOrdered(cfg: Config, s: State, m: Message)
    requires Inv(cfg, s) && OrderInv(cfg, s) && CanCommit(cfg, s) && cfg.userCommit && Holds(cfg, s, m)
    ensures OrderInv(cfg, UserCommit(cfg, s, m))
  {
    UserCommitSorted(cfg, s, m, s.polls);
  }

  lemma {:induction false} ReleaseQuietly(s: State, order: seq<string>) returns (acts: seq<Act>)
    ensures ReleaseVecs(s, order).trace == s.trace + acts
    ensures forall a :: a in acts ==> a.Destroy?
  {
    if order == [] {
      acts := [];
      assert s.trace + [] == s.trace;
    } else {
      acts := ReleaseQuietly(s, order[..|order| - 1]);
      var b := ReleaseVecs(s, order[..|order| - 1]);
      var k := order[|order| - 1];
      if k in b.vecs {
        acts := acts + DestroyAll(b.vecs[k]);
      }
    }
  }

  lemma ClearSorted(cfg: Config, s: State, order: seq<string>)
    requires Inv(cfg, s) && OrderInv(cfg, s) && Enabled(cfg, s, Clear(order))
    ensures OrderInv(cfg, Next(cfg, s, Clear(order)))
  {
    if cfg.userCommit {
      var acts := ReleaseQuietly(s, order);
      OrderedQuietly(cfg, s.trace, acts);
      QuietKeeps(cfg, s, Next(cfg, s, Clear(order)), acts);
    }
  }

  lemma {:induction false} RunSorted(cfg: Config, run: Run)
    requires Legal(cfg, run)
    ensures OrderInv(cfg, Final(cfg, run))
  {
    if run.Then? {
      RunSorted(cfg, run.before);
      RunKeeps(cfg, run.before);
      NextSorted(cfg, Final(cfg, run.before), run.event);
    }
  }

  // ---- The theorems ----

  ghost predicate SamePartition(a: Message, b: Message) {
    a.topic == b.topic && a.partition == b.partition
  }

  /** librdkafka hands out a partition's messages in offset order. */
  ghost predicate OffsetsIncrease(t: seq<Act>) {
    forall a, b :: Poll(a) in t && Poll(b) in t && a.ok && b.ok && SamePartition(a, b) && a.serial < b.serial ==>
      a.offset < b.offset
  }

  /** The messages of one partition share a waiting key. */
  ghost predicate KeyedByPartition(cfg: Config) {
    forall a, b :: SamePartition(a, b) ==> KeyOf(cfg, a) == KeyOf(cfg, b)
  }

  /** Commit attempts on a waiting key are strictly in poll order, and only of messages that
      were polled without an error. */
  lemma CommitsInPollOrder(cfg: Config, run: Run, i: nat, j: nat)
    requires Legal(cfg, run) && i < j < |Final(cfg, run).trace|
    requires Final(cfg, run).trace[i].Commit? && Final(cfg, run).trace[j].Commit?
    requires KeyOf(cfg, Final(cfg, run).trace[i].m) == KeyOf(cfg, Final(cfg, run).trace[j].m)
    ensures Final(cfg, run).trace[i].m.serial < Final(cfg, run).trace[j].m.serial
  {
    RunSorted(cfg, run);
    var t := Final(cfg, run).trace;
    assert OrderedNext(cfg, t[..j], t[j]);
    assert t[..j][i] == t[i];
  }

  lemma ActWasPolled(cfg: Config, run: Run, j: nat)
    requires Legal(cfg, run) && j < |Final(cfg, run).trace|
    ensures
      var t := Final(cfg, run).trace;
      && Poll(t[j].m) in t
      && (!t[j].Poll? ==> Poll(t[j].m) in t[..j])
      && (t[j].Commit? || t[j].Request? ==> t[j].m.ok)
  {
    RunKeeps(cfg, run);
    RunSorted(cfg, run);
    var t := Final(cfg, run).trace;
    assert SafeNext(t[..j], t[j]);
    if t[j].Commit? {
      assert OrderedNext(cfg, t[..j], t[j]);
      var i :| 0 <= i < j && t[..j][i] == Request(t[j].m);
      assert OrderedNext(cfg, t[..i], t[i]);
    } else if t[j].Request? {
      assert OrderedNext(cfg, t[..j], t[j]);
    }
  }

  /** Committed offsets never go back on a partition. */
  lemma CommittedOffsetsIncrease(cfg: Config, run: Run, i: nat, j: nat)
    requires Legal(cfg, run) && KeyedByPartition(cfg) && OffsetsIncrease(Final(cfg, run).trace)
    requires i < j < |Final(cfg, run).trace|
    requires Final(cfg, run).trace[i].Commit? && Final(cfg, run).trace[j].Commit?
    requires SamePartition(Final(cfg, run).trace[i].m, Final(cfg, run).trace[j].m)
    ensures Final(cfg, run).trace[i].m.offset < Final(cfg, run).trace[j].m.offset
  {
    CommitsInPollOrder(cfg, run, i, j);
    ActWasPolled(cfg, run, i);
    ActWasPolled(cfg, run, j);
  }

  lemma PolledInOrder(cfg: Config, t: seq<Act>, i: nat, x: Message)
    requires Ordered(cfg, t) && i < |t| && t[i].Poll? && Poll(x) in t && x.serial <= t[i].m.serial
    ensures Poll(x) in t[..i + 1]
    ensures x.serial == t[i].m.serial ==> x == t[i].m
  {
    var q :| 0 <= q < |t| && t[q] == Poll(x);
    assert OrderedNext(cfg, t[..q], t[q]);
    assert OrderedNext(cfg, t[..i], t[i]);
    if q < i {
      assert t[..i][q] == t[q] && t[..i + 1][q] == t[q];
    } else if q == i {
      assert t[..i + 1][i] == t[i];
    }
  }

  lemma PolledBeforeCommit(cfg: Config, run: Run, j: nat, x: Message)
    requires Legal(cfg, run) && j < |Final(cfg, run).trace| && Final(cfg, run).trace[j].Commit?
    requires Poll(x) in Final(cfg, run).trace && x.serial <= Final(cfg, run).trace[j].m.serial
    ensures Poll(x) in Final(cfg, run).trace[..j]
  {
    var t := Final(cfg, run).trace;
    RunSorted(cfg, run);
    ActWasPolled(cfg, run, j);
    var i :| 0 <= i < j && t[..j][i] == Poll(t[j].m);
    PolledInOrder(cfg, t, i, x);
    assert t[..i + 1] == t[..j][..i + 1];
  }

  /** Whenever an offset is committed, by a timed flush, by a rebalance inside a poll or by
      `stop`, every message of its partition at or below it was already delivered. */
  lemma DeliveredBeforeCommit(cfg: Config, run: Run, j: nat, x: Message)
    requires Legal(cfg, run) && !cfg.pull && OffsetsIncrease(Final(cfg, run).trace)
    requires j < |Final(cfg, run).trace| && Final(cfg, run).trace[j].Commit?
    requires Poll(x) in Final(cfg, run).trace && x.ok
    requires SamePartition(x, Final(cfg, run).trace[j].m) && x.offset <= Final(cfg, run).trace[j].m.offset
    ensures Deliver(x) in Final(cfg, run).trace[..j]
  {
    var t := Final(cfg, run).trace;
    ActWasPolled(cfg, run, j);
    assert x.serial <= t[j].m.serial;
    PolledBeforeCommit(cfg, run, j, x);
    RunSorted(cfg, run);
    assert OrderedNext(cfg, t[..j], t[j]);
  }

  // ---- Who asked for a commit ----

  ghost predicate Happened(run: Run, e: Event) {
    run.Then? && (run.event == e || Happened(run.before, e))
  }

  lemma {:induction false} FlushRequests(s: State, order: seq<string>)
    ensures forall m :: Request(m) in FlushSlots(s, order).trace <==> Request(m) in s.trace
  {
    if order != [] {
      FlushRequests(s, order[..|order| - 1]);
    }
  }

  /** The acts that an event adds, for the events that take one fixed step */
  ghost function StepActs(cfg: Config, s: State, e: Event): seq<Act>
    requires Enabled(cfg, s, e)
  {
    match e
    case Polled(m) => [Poll(m)]
    case Drop => [Destroy(s.phase.m)]
    case Keep =>
      if cfg.autoCommit then [Destroy(s.phase.m)]
      else if cfg.userCommit then []
      else Displaced(s, KeyOf(cfg, s.phase.m)) + [Request(s.phase.m)]
    case Delivered => [Deliver(s.phase.m)]
    case Return => if cfg.autoCommit then [Destroy(s.phase.m)] else []
    case _ => []
  }

  lemma StepTrace(cfg: Config, s: State, e: Event)
    requires Enabled(cfg, s, e) && !e.Revoked? && !e.TimedFlush? && !e.ForcedFlush? && !e.CommitOffset? && !e.Clear?
    ensures Next(cfg, s, e).trace == s.trace + StepActs(cfg, s, e)
  {
  }

  lemma NextRequests(cfg: Config, s: State, e: Event, m: Message)
    requires ModeOk(cfg) && Enabled(cfg, s, e)
    ensures Request(m) in Next(cfg, s, e).trace <==>
            Request(m) in s.trace
            || (cfg.userCommit && e == CommitOffset(m))
            || (!cfg.userCommit && !cfg.autoCommit && e.Keep? && m == s.phase.m)
  {
    match e
    case Revoked(now, order) => FlushRequests(s, order);
    case CommitOffset(rd) => if cfg.userCommit { UserCommitRequests(cfg, s, rd); }
    case TimedFlush(now, order) => FlushRequests(s, order);
    case ForcedFlush(now, order) => FlushRequests(s, order);
    case Clear(order) => var acts := ReleaseQuietly(s, order);
    case _ => StepTrace(cfg, s, e);
  }

  lemma UserCommitRequests(cfg: Config, s: State, m: Message)
    requires Holds(cfg, s, m)
    ensures forall x :: Request(x) in UserCommit(cfg, s, m).trace <==> Request(x) in s.trace || x == m
  {
    var front, back := UserCommitEffect(cfg, s, m);
    DestroyAllActs(front);
  }

  /** In user-manual mode a message was requested exactly when the user's callback called
      `commitOffset` on it; so nothing else is ever committed. */
  lemma {:induction false} RequestedByTheUser(cfg: Config, run: Run, m: Message)
    requires Legal(cfg, run) && cfg.userCommit
    ensures Request(m) in Final(cfg, run).trace <==> Happened(run, CommitOffset(m))
    ensures Commit(m) in Final(cfg, run).trace ==> Happened(run, CommitOffset(m))
  {
    RunSorted(cfg, run);
    if run.Then? {
      RequestedByTheUser(cfg, run.before, m);
      RunKeeps(cfg, run.before);
      RunSorted(cfg, run.before);
      NextRequests(cfg, Final(cfg, run.before), run.event, m);
    }
    CommitsWereRequested(cfg, Final(cfg, run).trace);
  }

  lemma CommitsWereRequested(cfg: Config, t: seq<Act>)
    requires Ordered(cfg, t)
    ensures forall m :: Commit(m) in t ==> Request(m) in t
  {
    forall m | Commit(m) in t ensures Request(m) in t {
      var j :| 0 <= j < |t| && t[j] == Commit(m);
      assert OrderedNext(cfg, t[..j], t[j]);
    }
  }

  /** In SDK-commit mode every accepted message past `keep` is requested. */
  lemma {:induction false} RequestedByTheSdk(cfg: Config, run: Run, m: Message)
    requires Legal(cfg, run) && !cfg.userCommit && !cfg.autoCommit
    ensures
      var s := Final(cfg, run);
      Request(m) in s.trace <==> Poll(m) in s.trace && m.ok && !(s.phase.Hand? && s.phase.m == m)
  {
    if run.Then? {
      var s := Final(cfg, run.before);
      RequestedByTheSdk(cfg, run.before, m);
      RunKeeps(cfg, run.before);
      RunSorted(cfg, run.before);
      NextRequests(cfg, s, run.event, m);
      NextPolls(cfg, s, run.event, m);
      NextHand(cfg, s, run.event);
      if run.event == Polled(m) {
        assert Poll(m) !in s.trace;
      }
    }
  }

  lemma NextHand(cfg: Config, s: State, e: Event)
    requires Enabled(cfg, s, e)
    ensures Next(cfg, s, e).phase.Hand? <==> e.Polled?
    ensures e.Polled? ==> Next(cfg, s, e).phase == Hand(e.m) && !s.phase.Hand?
    ensures e.Keep? ==> s.phase.Hand? && s.phase.m.ok
    ensures s.phase.Hand? ==> e.Keep? || (e.Drop? && !s.phase.m.ok) || (e.Delivered? && cfg.autoCommit)
  {
    match e
    case Revoked(now, order) => FlushPolls(s, order);
    case CommitOffset(rd) =>
    case TimedFlush(now, order) =>
    case ForcedFlush(now, order) =>
    case Clear(order) =>
    case _ =>
  }

  lemma NextPolls(cfg: Config, s: State, e: Event, m: Message)
    requires Enabled(cfg, s, e)
    ensures Poll(m) in Next(cfg, s, e).trace <==> Poll(m) in s.trace || e == Polled(m)
  {
    match e
    case Revoked(now, order) => FlushPolls(s, order);
    case CommitOffset(rd) => if cfg.userCommit { UserCommitPolls(cfg, s, rd); }
    case TimedFlush(now, order) => FlushPolls(s, order);
    case ForcedFlush(now, order) => FlushPolls(s, order);
    case Clear(order) => var acts := ReleaseQuietly(s, order);
    case _ => StepTrace(cfg, s, e);
  }

  /** In auto-commit mode the consumer commits nothing itself. */
  lemma {:induction false} AutoCommitsNothing(cfg: Config, run: Run, m: Message)
    requires Legal(cfg, run) && cfg.autoCommit
    ensures Request(m) !in Final(cfg, run).trace && Commit(m) !in Final(cfg, run).trace
  {
    RunSorted(cfg, run);
    if run.Then? {
      AutoCommitsNothing(cfg, run.before, m);
      RunKeeps(cfg, run.before);
      RunSorted(cfg, run.before);
      NextRequests(cfg, Final(cfg, run.before), run.event, m);
    }
    CommitsWereRequested(cfg, Final(cfg, run).trace);
  }
}
