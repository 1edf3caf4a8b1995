/** What the calls into librdkafka and the user's callback are, told from the events alone: the
    messages polled, those delivered, and those committed, by every event of every run. */
module KafkaEffects {
  import opened KafkaConsumerSpec
  import opened KafkaOwnership
  import opened KafkaCommitOrder
  import opened KafkaFlushRate
  import opened KafkaHistory
  import opened MapWalk

  // ---- Commits ----

  /** The newest request on its key, not committed yet */
  ghost predicate Waiting(cfg: Config, t: seq<Act>, m: Message) {
    && Request(m) in t && Commit(m) !in t
    && forall x :: Request(x) in t && KeyOf(cfg, x) == KeyOf(cfg, m) ==> x.serial <= m.serial
  }

  lemma LaterRequestIsNewer(cfg: Config, t: seq<Act>, i: nat, j: nat)
    requires Ordered(cfg, t) && i < j < |t| && t[i].Request? && t[j].Request? && KeyOf(cfg, t[i].m) == KeyOf(cfg, t[j].m)
    ensures t[i].m.serial < t[j].m.serial
  {
    assert OrderedNext(cfg, t[..j], t[j]);
    assert t[..j][i] == t[i];
  }

  lemma RequestsDistinct(cfg: Config, t: seq<Act>, a: Message, b: Message)
    requires Ordered(cfg, t) && Request(a) in t && Request(b) in t
    requires KeyOf(cfg, a) == KeyOf(cfg, b) && a.serial == b.serial
    ensures a == b
  {
    var i: nat :| 0 <= i < |t| && t[i] == Request(a);
    var j: nat :| 0 <= j < |t| && t[j] == Request(b);
    if i < j {
      LaterRequestIsNewer(cfg, t, i, j);
    } else if j < i {
      LaterRequestIsNewer(cfg, t, j, i);
    }
  }

  lemma WaitingOccupies(cfg: Config, s: State, m: Message)
    requires Sorted(cfg, s) && Waiting(cfg, s.trace, m)
    requires forall k :: k in s.slots ==> KeyOf(cfg, s.slots[k]) == k
    ensures InSlot(cfg, s, m)
  {
    assert InReach(cfg, s, m);
    var k := KeyOf(cfg, m);
    if k in s.slots && m.serial <= s.slots[k].serial {
      RequestsDistinct(cfg, s.trace, s.slots[k], m);
    } else {
      CommitsWereRequested(cfg, s.trace);
      var c :| Commit(c) in s.trace && KeyOf(cfg, c) == k && m.serial <= c.serial;
      RequestsDistinct(cfg, s.trace, c, m);
    }
  }

  /** The slots hold exactly the waiting messages. */
  lemma SlotsAreWaiting(cfg: Config, run: Run, m: Message)
    requires Legal(cfg, run)
    ensures Waiting(cfg, Final(cfg, run).trace, m) <==> InSlot(cfg, Final(cfg, run), m)
  {
    RunKeeps(cfg, run);
    RunSorted(cfg, run);
    var s := Final(cfg, run);
    if Waiting(cfg, s.trace, m) {
      WaitingOccupies(cfg, s, m);
    }
  }

  lemma {:induction false} FlushCommits(s: State, order: seq<string>, k: string)
    requires k in s.slots
    ensures k in order ==> Commit(s.slots[k]) in FlushSlots(s, order).trace
    ensures k !in order ==> k in FlushSlots(s, order).slots && FlushSlots(s, order).slots[k] == s.slots[k]
  {
    if order != [] {
      var n := |order| - 1;
      FlushCommits(s, order[..n], k);
      assert order == order[..n] + [order[n]];
    }
  }

  lemma {:induction false} FlushCommitsOnly(s: State, order: seq<string>, m: Message)
    requires !Occupies(s, m)
    ensures Commit(m) in FlushSlots(s, order).trace ==> Commit(m) in s.trace
    ensures !Occupies(FlushSlots(s, order), m)
  {
    if order != [] {
      FlushCommitsOnly(s, order[..|order| - 1], m);
    }
  }

  lemma {:induction false} FlushForgetsNothing(s: State, order: seq<string>, a: Act)
    requires a in s.trace
    ensures a in FlushSlots(s, order).trace
  {
    if order != [] {
      FlushForgetsNothing(s, order[..|order| - 1], a);
    }
  }

  lemma FlushSlotsCommit(cfg: Config, s: State, order: seq<string>, m: Message)
    requires Enumerates(order, s.slots.Keys) && forall k :: k in s.slots ==> KeyOf(cfg, s.slots[k]) == k
    ensures Commit(m) in FlushSlots(s, order).trace <==> Commit(m) in s.trace || InSlot(cfg, s, m)
  {
    if Commit(m) in s.trace {
      FlushForgetsNothing(s, order, Commit(m));
    }
    if InSlot(cfg, s, m) {
      FlushCommits(s, order, KeyOf(cfg, m));
    } else {
      FlushCommitsOnly(s, order, m);
    }
  }

  predicate IsFlush(e: Event) {
    e.Revoked? || e.TimedFlush? || e.ForcedFlush?
  }

  lemma FlushEventCommits(cfg: Config, run: Run, e: Event, m: Message)
    requires Legal(cfg, Then(run, e)) && IsFlush(e)
    ensures Commit(m) in Final(cfg, Then(run, e)).trace <==>
            Commit(m) in Final(cfg, run).trace || (MustFlush(cfg, run, e) && InSlot(cfg, Final(cfg, run), m))
  {
    var s := Final(cfg, run);
    RunKeeps(cfg, run);
    if !cfg.autoCommit {
      LastMsIsLatest(cfg, run);
      FlushSlotsCommit(cfg, s, e.order, m);
    }
  }

  /** What the other events append */
  lemma OtherActs(cfg: Config, s: State, e: Event) returns (acts: seq<Act>)
    requires Enabled(cfg, s, e) && !IsFlush(e)
    ensures Next(cfg, s, e).trace == s.trace + acts
    ensures forall a :: a in acts ==> !a.Commit?
    ensures !e.Polled? && !e.Delivered? ==> forall a :: a in acts ==> !a.Poll? && !a.Deliver?
    ensures e.Polled? ==> acts == [Poll(e.m)]
    ensures e.Delivered? ==> acts == [Deliver(s.phase.m)]
  {
    if e.CommitOffset? && cfg.userCommit {
      acts := UserCommitActs(cfg, s, e.rd);
    } else if e.Clear? && cfg.userCommit {
      acts := ReleaseQuietly(s, e.order);
    } else if e.CommitOffset? || e.Clear? {
      acts := [];
      assert s.trace + [] == s.trace;
    } else {
      acts := StepActs(cfg, s, e);
      StepTrace(cfg, s, e);
    }
  }

  lemma UserCommitActs(cfg: Config, s: State, m: Message) returns (acts: seq<Act>)
    requires Holds(cfg, s, m)
    ensures UserCommit(cfg, s, m).trace == s.trace + acts
    ensures forall a :: a in acts ==> a.Request? || a.Destroy?
  {
    var front, back := UserCommitEffect(cfg, s, m);
    DestroyAllActs(front);
    acts := Displaced(s, KeyOf(cfg, m)) + [Request(m)] + DestroyAll(front);
  }

  /** Every event of every run commits exactly this: a revocation, a forced flush, and a timed
      flush that is due commit what waits; everything else commits nothing. */
  lemma CommitsIff(cfg: Config, run: Run, e: Event, m: Message)
    requires Legal(cfg, Then(run, e))
    ensures Commit(m) in Final(cfg, Then(run, e)).trace <==>
            Commit(m) in Final(cfg, run).trace || (MustFlush(cfg, run, e) && Waiting(cfg, Final(cfg, run).trace, m))
  {
    SlotsAreWaiting(cfg, run, m);
    if IsFlush(e) {
      FlushEventCommits(cfg, run, e, m);
    } else {
      var acts := OtherActs(cfg, Final(cfg, run), e);
    }
  }

  // ---- Polls and deliveries ----

  ghost function Polls(t: seq<Act>): seq<Message> {
    if t == [] then [] else Polls(t[..|t| - 1]) + if t[|t| - 1].Poll? then [t[|t| - 1].m] else []
  }

  ghost function Deliveries(t: seq<Act>): seq<Message> {
    if t == [] then [] else Deliveries(t[..|t| - 1]) + if t[|t| - 1].Deliver? then [t[|t| - 1].m] else []
  }

  lemma {:induction false} SeenQuietly(t: seq<Act>, acts: seq<Act>)
    requires forall a :: a in acts ==> !a.Poll? && !a.Deliver?
    ensures Polls(t + acts) == Polls(t) && Deliveries(t + acts) == Deliveries(t)
  {
    if acts == [] {
      assert t + acts == t;
    } else {
      var n := |acts| - 1;
      assert acts[n] in acts;
      assert (t + acts)[..|t + acts| - 1] == t + acts[..n];
      SeenQuietly(t, acts[..n]);
    }
  }

  lemma SeenSnoc(t: seq<Act>, a: Act)
    ensures Polls(t + [a]) == Polls(t) + if a.Poll? then [a.m] else []
    ensures Deliveries(t + [a]) == Deliveries(t) + if a.Deliver? then [a.m] else []
  {
    assert (t + [a])[..|t|] == t;
  }

  /** The messages that the polls returned */
  function Returned(run: Run): seq<Message> {
    match run
    case Start => []
    case Then(before, Polled(m)) => Returned(before) + [m]
    case Then(before, e) => Returned(before)
  }

  /** Those that pass `checkMsg` */
  function AcceptedOf(run: Run): seq<Message> {
    match run
    case Start => []
    case Then(before, Polled(m)) => AcceptedOf(before) + if m.ok then [m] else []
    case Then(before, e) => AcceptedOf(before)
  }

  /** The accepted message that was not delivered yet, if there is one */
  function AboutToDeliver(s: State): seq<Message> {
    if s.phase.Kept? || (s.phase.Hand? && s.phase.m.ok) then [s.phase.m] else []
  }

  lemma NextSeen(cfg: Config, s: State, e: Event)
    requires Enabled(cfg, s, e)
    ensures
      var n := Next(cfg, s, e);
      && Polls(n.trace) == Polls(s.trace) + (if e.Polled? then [e.m] else [])
      && Deliveries(n.trace) == Deliveries(s.trace) + (if e.Delivered? then [s.phase.m] else [])
  {
    if IsFlush(e) {
      var acts := FlushActs(s, e.order);
      assert s.trace + [] == s.trace;
      SeenQuietly(s.trace, acts);
    } else {
      var acts := OtherActs(cfg, s, e);
      if e.Polled? || e.Delivered? {
        SeenSnoc(s.trace, acts[0]);
      } else {
        SeenQuietly(s.trace, acts);
      }
    }
  }

  lemma NextAbout(cfg: Config, s: State, e: Event)
    requires Enabled(cfg, s, e) && !cfg.pull
    ensures AboutToDeliver(Next(cfg, s, e)) ==
      if e.Polled? then (if e.m.ok then [e.m] else [])
      else if e.Delivered? then []
      else AboutToDeliver(s)
    ensures e.Polled? ==> AboutToDeliver(s) == []
    ensures e.Delivered? ==> AboutToDeliver(s) == [s.phase.m]
  {
    if IsFlush(e) {
      FlushPolls(s, e.order);
    }
  }

  /** What is recorded as polled is what the polls returned, in order. */
  lemma {:induction false} PollsAreReturned(cfg: Config, run: Run)
    requires Legal(cfg, run)
    ensures Polls(Final(cfg, run).trace) == Returned(run)
  {
    if run.Then? {
      PollsAreReturned(cfg, run.before);
      NextSeen(cfg, Final(cfg, run.before), run.event);
    }
  }

  /** The callback gets exactly the accepted messages, each once, in the order polled; only the
      one in hand is still to come. */
  lemma {:induction false} DeliveriesAreAccepted(cfg: Config, run: Run)
    requires Legal(cfg, run) && !cfg.pull
    ensures Deliveries(Final(cfg, run).trace) + AboutToDeliver(Final(cfg, run)) == AcceptedOf(run)
  {
    if run.Then? {
      DeliveriesAreAccepted(cfg, run.before);
      NextSeen(cfg, Final(cfg, run.before), run.event);
      NextAbout(cfg, Final(cfg, run.before), run.event);
    }
  }
}
