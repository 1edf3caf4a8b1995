/** User-manual mode seen from the history: on every waiting key, what was polled is what was
    released, then the occupied slot, then the wait-destroy vector, then the message in hand.
    The destroy-and-erase loop of `removeWaitDestroyMsgs` is "drop the prefix up to m". */
module KafkaHistory {
  import opened KafkaConsumerSpec
  import opened KafkaOwnership
  import opened KafkaCommitOrder

  /** The accepted messages of a key, in poll order */
  ghost function PolledOn(cfg: Config, t: seq<Act>, k: string): seq<Message> {
    if t == [] then []
    else
      var a := t[|t| - 1];
      PolledOn(cfg, t[..|t| - 1], k) + if a.Poll? && a.m.ok && KeyOf(cfg, a.m) == k then [a.m] else []
  }

  ghost function SlotPart(s: State, k: string): seq<Message> {
    if k in s.slots then [s.slots[k]] else []
  }

  ghost function HandPart(cfg: Config, s: State, k: string): seq<Message> {
    if s.phase.Hand? && s.phase.m.ok && KeyOf(cfg, s.phase.m) == k then [s.phase.m] else []
  }

  /** The part of a key's history that is not released yet */
  ghost function Pending(cfg: Config, s: State, k: string): seq<Message> {
    SlotPart(s, k) + Vec(s, k) + HandPart(cfg, s, k)
  }

  ghost predicate EndsWith(p: seq<Message>, tail: seq<Message>) {
    |tail| <= |p| && p[|p| - |tail|..] == tail
  }

  lemma {:induction false} PolledOnAppend(cfg: Config, t: seq<Act>, acts: seq<Act>, k: string)
    requires forall a :: a in acts ==> !a.Poll?
    ensures PolledOn(cfg, t + acts, k) == PolledOn(cfg, t, k)
  {
    if acts == [] {
      assert t + acts == t;
    } else {
      var n := |acts| - 1;
      assert acts[n] in acts;
      assert (t + acts)[..|t + acts| - 1] == t + acts[..n];
      PolledOnAppend(cfg, t, acts[..n], k);
    }
  }

  lemma {:induction false} PolledOnMeans(cfg: Config, t: seq<Act>, k: string)
    requires Ordered(cfg, t)
    ensures forall m :: m in PolledOn(cfg, t, k) <==> Poll(m) in t && m.ok && KeyOf(cfg, m) == k
    ensures forall i, j :: 0 <= i < j < |PolledOn(cfg, t, k)| ==> PolledOn(cfg, t, k)[i].serial < PolledOn(cfg, t, k)[j].serial
  {
    if t != [] {
      var n := |t| - 1;
      forall j | 0 <= j < n ensures OrderedNext(cfg, t[..n][..j], t[..n][j]) {
        assert t[..n][..j] == t[..j];
      }
      PolledOnMeans(cfg, t[..n], k);
      assert t == t[..n] + [t[n]];
      assert OrderedNext(cfg, t[..n], t[n]);
      var p := PolledOn(cfg, t[..n], k);
      assert forall i :: 0 <= i < |p| ==> p[i] in p;
    }
  }

  lemma {:induction false} FlushActs(s: State, order: seq<string>) returns (acts: seq<Act>)
    ensures FlushSlots(s, order).trace == s.trace + acts
    ensures forall a :: a in acts ==> a.Commit? || a.Destroy?
    ensures forall k :: k in FlushSlots(s, order).slots ==> k in s.slots && FlushSlots(s, order).slots[k] == s.slots[k]
    ensures forall k :: k in s.slots && k !in FlushSlots(s, order).slots ==> Destroy(s.slots[k]) in FlushSlots(s, order).trace
    ensures FlushSlots(s, order).vecs == s.vecs && FlushSlots(s, order).phase == s.phase
  {
    if order == [] {
      acts := [];
      assert s.trace + [] == s.trace;
    } else {
      var b := FlushSlots(s, order[..|order| - 1]);
      var k := order[|order| - 1];
      acts := FlushActs(s, order[..|order| - 1]);
      if k in b.slots {
        acts := acts + [Commit(b.slots[k]), Destroy(b.slots[k])];
      }
    }
  }

  lemma Front(p: seq<Message>, tail: seq<Message>) returns (front: seq<Message>)
    requires EndsWith(p, tail)
    ensures p == front + tail
  {
    front := p[..|p| - |tail|];
  }

  lemma EndsShorter(p: seq<Message>, head: seq<Message>, tail: seq<Message>)
    requires EndsWith(p, head + tail)
    ensures EndsWith(p, tail)
  {
    assert p[|p| - |tail|..] == p[|p| - |head + tail|..][|head|..];
  }

  ghost predicate HistoryInv(cfg: Config, s: State, k: string) {
    EndsWith(PolledOn(cfg, s.trace, k), Pending(cfg, s, k))
  }

  /** A slot that is emptied becomes part of what was released. */
  lemma EmptiedHistory(cfg: Config, s: State, n: State, k: string)
    requires HistoryInv(cfg, s, k) && PolledOn(cfg, n.trace, k) == PolledOn(cfg, s.trace, k)
    requires SlotPart(n, k) == [] && Vec(n, k) == Vec(s, k) && HandPart(cfg, n, k) == HandPart(cfg, s, k)
    ensures HistoryInv(cfg, n, k)
  {
    var tail := Vec(s, k) + HandPart(cfg, s, k);
    assert Pending(cfg, s, k) == SlotPart(s, k) + tail;
    EndsShorter(PolledOn(cfg, s.trace, k), SlotPart(s, k), tail);
    assert Pending(cfg, n, k) == tail;
  }

  lemma FlushParts(cfg: Config, s: State, force: bool, now: int, order: seq<string>, k: string)
    ensures
      var n := Flush(cfg, s, force, now, order);
      && PolledOn(cfg, n.trace, k) == PolledOn(cfg, s.trace, k)
      && (SlotPart(n, k) == [] || SlotPart(n, k) == SlotPart(s, k))
      && Vec(n, k) == Vec(s, k) && HandPart(cfg, n, k) == HandPart(cfg, s, k)
  {
    var acts := FlushActs(s, order);
    PolledOnAppend(cfg, s.trace, acts, k);
  }

  lemma FlushHistory(cfg: Config, s: State, force: bool, now: int, order: seq<string>, k: string)
    requires HistoryInv(cfg, s, k)
    ensures HistoryInv(cfg, Flush(cfg, s, force, now, order), k)
  {
    var n := Flush(cfg, s, force, now, order);
    FlushParts(cfg, s, force, now, order, k);
    if SlotPart(n, k) == [] {
      EmptiedHistory(cfg, s, n, k);
    } else {
      SamePending(cfg, s, n, k);
    }
  }

  lemma EndsLonger(p: seq<Message>, tail: seq<Message>, more: seq<Message>)
    requires EndsWith(p, tail)
    ensures EndsWith(p + more, tail + more)
  {
    assert (p + more)[|p| - |tail|..] == p[|p| - |tail|..] + more;
  }

  /** The cut vector, with its old slot and with its new one */
  lemma CutPending(cfg: Config, s: State, n: State, k: string, front: seq<Message>, m: Message, back: seq<Message>)
    requires HandPart(cfg, s, k) == HandPart(cfg, n, k) == []
    requires Vec(s, k) == front + [m] + back && Vec(n, k) == back && SlotPart(n, k) == [m]
    ensures Pending(cfg, s, k) == SlotPart(s, k) + front + Pending(cfg, n, k)
  {
  }

  lemma UserCommitPolled(cfg: Config, s: State, m: Message, k: string)
    requires Holds(cfg, s, m)
    ensures PolledOn(cfg, UserCommit(cfg, s, m).trace, k) == PolledOn(cfg, s.trace, k)
  {
    var front, back := UserCommitEffect(cfg, s, m);
    DestroyAllActs(front);
    var d := Displaced(s, KeyOf(cfg, m));
    PolledOnAppend(cfg, s.trace, d, k);
    PolledOnAppend(cfg, s.trace + d, [Request(m)], k);
    PolledOnAppend(cfg, s.trace + d + [Request(m)], DestroyAll(front), k);
  }

  lemma UserCommitParts(cfg: Config, s: State, m: Message, k: string)
    requires !s.phase.Hand? && Holds(cfg, s, m)
    ensures HandPart(cfg, s, k) == HandPart(cfg, UserCommit(cfg, s, m), k) == []
    ensures k != KeyOf(cfg, m) ==>
      var n := UserCommit(cfg, s, m);
      SlotPart(n, k) == SlotPart(s, k) && Vec(n, k) == Vec(s, k)
  {
    var front, back := UserCommitEffect(cfg, s, m);
  }

  lemma UserCommitHistory(cfg: Config, s: State, m: Message, k: string)
    requires HistoryInv(cfg, s, k) && !s.phase.Hand? && Holds(cfg, s, m)
    ensures HistoryInv(cfg, UserCommit(cfg, s, m), k)
  {
    var n := UserCommit(cfg, s, m);
    UserCommitPolled(cfg, s, m, k);
    UserCommitParts(cfg, s, m, k);
    if k == KeyOf(cfg, m) {
      var front, back := UserCommitEffect(cfg, s, m);
      CutPending(cfg, s, n, k, front, m, back);
      EndsShorter(PolledOn(cfg, s.trace, k), SlotPart(s, k) + front, Pending(cfg, n, k));
    } else {
      SamePending(cfg, s, n, k);
    }
  }

  lemma SamePending(cfg: Config, s: State, n: State, k: string)
    requires HistoryInv(cfg, s, k) && PolledOn(cfg, n.trace, k) == PolledOn(cfg, s.trace, k)
    requires SlotPart(n, k) == SlotPart(s, k) && Vec(n, k) == Vec(s, k) && HandPart(cfg, n, k) == HandPart(cfg, s, k)
    ensures HistoryInv(cfg, n, k)
  {
  }

  lemma PolledOnSnoc(cfg: Config, t: seq<Act>, a: Act, k: string)
    ensures PolledOn(cfg, t + [a], k) == PolledOn(cfg, t, k) + if a.Poll? && a.m.ok && KeyOf(cfg, a.m) == k then [a.m] else []
  {
    assert (t + [a])[..|t + [a]| - 1] == t;
  }

  lemma PolledHistory(cfg: Config, s: State, m: Message, k: string)
    requires HistoryInv(cfg, s, k) && Enabled(cfg, s, Polled(m))
    ensures HistoryInv(cfg, Next(cfg, s, Polled(m)), k)
  {
    var n := Next(cfg, s, Polled(m));
    PolledOnSnoc(cfg, s.trace, Poll(m), k);
    EndsLonger(PolledOn(cfg, s.trace, k), Pending(cfg, s, k), HandPart(cfg, n, k));
    assert HandPart(cfg, s, k) == [];
    assert Pending(cfg, n, k) == Pending(cfg, s, k) + HandPart(cfg, n, k);
  }

  lemma KeepParts(cfg: Config, s: State, k: string)
    requires cfg.userCommit && ModeOk(cfg) && Enabled(cfg, s, Keep)
    ensures
      var n := Next(cfg, s, Keep);
      && n.trace == s.trace && SlotPart(n, k) == SlotPart(s, k)
      && Vec(n, k) == Vec(s, k) + HandPart(cfg, s, k) && HandPart(cfg, n, k) == []
  {
  }

  lemma KeepHistory(cfg: Config, s: State, k: string)
    requires cfg.userCommit && ModeOk(cfg) && HistoryInv(cfg, s, k) && Enabled(cfg, s, Keep)
    ensures HistoryInv(cfg, Next(cfg, s, Keep), k)
  {
    var n := Next(cfg, s, Keep);
    KeepParts(cfg, s, k);
    assert Pending(cfg, n, k) == Pending(cfg, s, k);
  }

  /** Destroying what is not pending, or delivering, changes neither side. */
  lemma HandHistory(cfg: Config, s: State, e: Event, k: string)
    requires cfg.userCommit && ModeOk(cfg) && HistoryInv(cfg, s, k) && Enabled(cfg, s, e)
    requires e.Drop? || e.Delivered? || e.Return?
    ensures HistoryInv(cfg, Next(cfg, s, e), k)
  {
    var n := Next(cfg, s, e);
    var acts := if e.Drop? then [Destroy(s.phase.m)] else if e.Delivered? then [Deliver(s.phase.m)] else [];
    assert n.trace == s.trace + acts;
    PolledOnAppend(cfg, s.trace, acts, k);
    assert Vec(n, k) == Vec(s, k) && SlotPart(n, k) == SlotPart(s, k) && HandPart(cfg, n, k) == HandPart(cfg, s, k);
  }

  lemma ClearHistory(cfg: Config, s: State, order: seq<string>, k: string)
    requires HistoryInv(cfg, s, k) && Enabled(cfg, s, Clear(order))
    ensures HistoryInv(cfg, Next(cfg, s, Clear(order)), k)
  {
    var acts := ReleaseQuietly(s, order);
    PolledOnAppend(cfg, s.trace, acts, k);
  }

  lemma PhaseHistory(cfg: Config, s: State, phase: Phase, k: string)
    requires HistoryInv(cfg, s, k) && !s.phase.Hand? && !phase.Hand?
    ensures HistoryInv(cfg, s.(phase := phase), k)
  {
    SamePending(cfg, s, s.(phase := phase), k);
  }

  lemma FlushPhaseHistory(cfg: Config, s: State, force: bool, now: int, order: seq<string>, phase: Phase, k: string)
    requires HistoryInv(cfg, s, k) && !s.phase.Hand? && !phase.Hand?
    ensures HistoryInv(cfg, Flush(cfg, s, force, now, order).(phase := phase), k)
  {
    FlushHistory(cfg, s, force, now, order, k);
    FlushPolls(s, order);
    PhaseHistory(cfg, Flush(cfg, s, force, now, order), phase, k);
  }

  lemma NextHistory(cfg: Config, s: State, e: Event, k: string)
    requires cfg.userCommit && ModeOk(cfg) && HistoryInv(cfg, s, k) && Enabled(cfg, s, e)
    ensures HistoryInv(cfg, Next(cfg, s, e), k)
  {
    match e
    case Revoked(now, order) => FlushHistory(cfg, s, true, now, order, k);
    case TimedFlush(now, order) => FlushPhaseHistory(cfg, s, false, now, order, Next(cfg, s, e).phase, k);
    case ForcedFlush(now, order) => FlushPhaseHistory(cfg, s, true, now, order, Drained, k);
    case PolledNothing => SamePending(cfg, s, Next(cfg, s, e), k);
    case Exit => SamePending(cfg, s, Next(cfg, s, e), k);
    case CommitOffset(rd) => UserCommitHistory(cfg, s, rd, k);
    case Clear(order) => ClearHistory(cfg, s, order, k);
    case Polled(m) => PolledHistory(cfg, s, m, k);
    case Keep => KeepHistory(cfg, s, k);
    case _ => HandHistory(cfg, s, e, k);
  }

  lemma {:induction false} RunHistory(cfg: Config, run: Run, k: string)
    requires Legal(cfg, run) && cfg.userCommit
    ensures HistoryInv(cfg, Final(cfg, run), k)
  {
    if run.Then? {
      RunHistory(cfg, run.before, k);
      RunKeeps(cfg, run.before);
      NextHistory(cfg, Final(cfg, run.before), run.event, k);
    }
  }

  /** On every run, the history of a key is a released part, all of it destroyed, followed in
      order by the slot's occupant, the vector, and the message in hand. */
  lemma HistorySplits(cfg: Config, run: Run, k: string) returns (released: seq<Message>)
    requires Legal(cfg, run) && cfg.userCommit
    ensures
      var s := Final(cfg, run);
      && PolledOn(cfg, s.trace, k) == released + Pending(cfg, s, k)
      && forall m :: m in released ==> Destroy(m) in s.trace
  {
    var s := Final(cfg, run);
    RunHistory(cfg, run, k);
    RunKeeps(cfg, run);
    RunSorted(cfg, run);
    var p, tail := PolledOn(cfg, s.trace, k), Pending(cfg, s, k);
    released := Front(p, tail);
    ReleasedAreDestroyed(cfg, s, k, released);
  }

  lemma ReleasedAreDestroyed(cfg: Config, s: State, k: string, released: seq<Message>)
    requires Inv(cfg, s) && OrderInv(cfg, s) && cfg.userCommit
    requires PolledOn(cfg, s.trace, k) == released + Pending(cfg, s, k)
    ensures forall m :: m in released ==> Destroy(m) in s.trace
  {
    var p := PolledOn(cfg, s.trace, k);
    PolledOnMeans(cfg, s.trace, k);
    forall i | 0 <= i < |released| ensures Destroy(released[i]) in s.trace {
      assert p[i] in p;
      BeforeTail(released, Pending(cfg, s, k), i);
      NotPendingIsDestroyed(cfg, s, p[i]);
    }
  }

  lemma BeforeTail(released: seq<Message>, tail: seq<Message>, i: nat)
    requires i < |released|
    requires var p := released + tail;
      forall i, j :: 0 <= i < j < |p| ==> p[i].serial < p[j].serial
    ensures released[i] !in tail
  {
    var p := released + tail;
    forall j | 0 <= j < |tail| ensures tail[j] != released[i] {
      assert p[i].serial < p[|released| + j].serial;
    }
  }

  lemma NotPendingIsDestroyed(cfg: Config, s: State, m: Message)
    requires Inv(cfg, s) && cfg.userCommit && Poll(m) in s.trace && m.ok && m !in Pending(cfg, s, KeyOf(cfg, m))
    ensures Destroy(m) in s.trace
  {
    var k := KeyOf(cfg, m);
    assert !InSlot(cfg, s, m) by {
      if k in s.slots { assert s.slots[k] in SlotPart(s, k); }
    }
    assert m !in Vec(s, k) && m !in HandPart(cfg, s, k);
    assert !Live(s.trace, m);
  }

  // ---- What the caller of commitOffset owes ----

  /** Some message of the same key, this one or a later one, was requested. */
  ghost predicate Passed(cfg: Config, t: seq<Act>, m: Message) {
    exists x :: Request(x) in t && KeyOf(cfg, x) == KeyOf(cfg, m) && m.serial <= x.serial
  }

  /** Before `stop` clears the vectors, accepted messages are destroyed only once passed. */
  ghost predicate DestroysPassed(cfg: Config, t: seq<Act>) {
    forall m :: Destroy(m) in t && m.ok ==> Passed(cfg, t, m)
  }

  lemma PassedGrows(cfg: Config, t: seq<Act>, acts: seq<Act>)
    requires DestroysPassed(cfg, t)
    requires forall m :: Destroy(m) in acts && m.ok ==> Passed(cfg, t + acts, m)
    ensures DestroysPassed(cfg, t + acts)
  {
    forall m | Destroy(m) in t + acts && m.ok ensures Passed(cfg, t + acts, m) {
      if Destroy(m) in t {
        var x :| Request(x) in t && KeyOf(cfg, x) == KeyOf(cfg, m) && m.serial <= x.serial;
        assert Request(x) in t + acts;
      }
    }
  }

  ghost predicate Occupies(s: State, m: Message) {
    exists k :: k in s.slots && s.slots[k] == m
  }

  /** A flush destroys only what occupied a slot. */
  lemma {:induction false} FlushDestroys(s: State, order: seq<string>, m: Message)
    ensures Destroy(m) in FlushSlots(s, order).trace ==> Destroy(m) in s.trace || Occupies(s, m)
    ensures forall k :: k in FlushSlots(s, order).slots ==> k in s.slots && FlushSlots(s, order).slots[k] == s.slots[k]
  {
    if order != [] {
      FlushDestroys(s, order[..|order| - 1], m);
    }
  }

  lemma FlushPasses(cfg: Config, s: State, order: seq<string>)
    requires DestroysPassed(cfg, s.trace) && SlotsOrdered(cfg, s)
    ensures DestroysPassed(cfg, FlushSlots(s, order).trace)
  {
    var n := FlushSlots(s, order);
    FlushRequests(s, order);
    forall m | Destroy(m) in n.trace && m.ok ensures Passed(cfg, n.trace, m) {
      FlushDestroys(s, order, m);
      if Destroy(m) in s.trace {
        var x :| Request(x) in s.trace && KeyOf(cfg, x) == KeyOf(cfg, m) && m.serial <= x.serial;
        assert Request(x) in n.trace;
      } else {
        assert Request(m) in n.trace;
      }
    }
  }

  /** What a user commit destroys comes before the committed message. */
  lemma CommitActsPassed(cfg: Config, t: seq<Act>, displaced: seq<Act>, m: Message, front: seq<Message>)
    requires DestroysPassed(cfg, t)
    requires forall a :: a in displaced ==> a.Destroy? && KeyOf(cfg, a.m) == KeyOf(cfg, m) && a.m.serial <= m.serial
    requires forall x :: x in front ==> KeyOf(cfg, x) == KeyOf(cfg, m) && x.serial <= m.serial
    ensures DestroysPassed(cfg, t + (displaced + [Request(m)] + DestroyAll(front)))
  {
    DestroyAllActs(front);
    var acts := displaced + [Request(m)] + DestroyAll(front);
    assert Request(m) in acts;
    forall x | Destroy(x) in acts && x.ok ensures Passed(cfg, t + acts, x) {
      assert Destroy(x) in displaced || x in front;
      assert Request(m) in t + acts;
    }
    PassedGrows(cfg, t, acts);
  }

  lemma CutIsOlder(cfg: Config, s: State, k: string, front: seq<Message>, m: Message, back: seq<Message>, limit: nat)
    requires Tidy(cfg, s, limit) && Cut(cfg, s, k, front, m, back)
    ensures forall a :: a in Displaced(s, k) ==> a.Destroy? && KeyOf(cfg, a.m) == k && a.m.serial <= m.serial
    ensures forall x :: x in front ==> KeyOf(cfg, x) == k && x.serial <= m.serial
  {
    CutFacts(cfg, s, k, front, m, back, limit);
  }

  lemma UserCommitPasses(cfg: Config, s: State, m: Message, limit: nat)
    requires DestroysPassed(cfg, s.trace) && Tidy(cfg, s, limit) && Holds(cfg, s, m)
    ensures DestroysPassed(cfg, UserCommit(cfg, s, m).trace)
  {
    var k := KeyOf(cfg, m);
    var front, back := UserCommitEffect(cfg, s, m);
    var d := Displaced(s, k);
    Regroup(s.trace, d, [Request(m)], DestroyAll(front));
    CutIsOlder(cfg, s, k, front, m, back, limit);
    CommitActsPassed(cfg, s.trace, d, m, front);
  }

  lemma Regroup(a: seq<Act>, b: seq<Act>, c: seq<Act>, d: seq<Act>)
    ensures a + b + c + d == a + (b + c + d)
  {
  }

  lemma NextPasses(cfg: Config, s: State, e: Event)
    requires cfg.userCommit && Inv(cfg, s) && OrderInv(cfg, s) && Enabled(cfg, s, e) && !Next(cfg, s, e).phase.Closing?
    requires DestroysPassed(cfg, s.trace)
    ensures DestroysPassed(cfg, Next(cfg, s, e).trace)
  {
    match e
    case Revoked(now, order) => FlushPasses(cfg, s, order);
    case TimedFlush(now, order) => FlushPasses(cfg, s, order);
    case ForcedFlush(now, order) => FlushPasses(cfg, s, order);
    case CommitOffset(rd) => UserCommitPasses(cfg, s, rd, s.polls);
    case Clear(order) =>
    case _ =>
      StepTrace(cfg, s, e);
      PassedGrows(cfg, s.trace, StepActs(cfg, s, e));
  }

  lemma {:induction false} RunPasses(cfg: Config, run: Run)
    requires Legal(cfg, run) && cfg.userCommit && !Final(cfg, run).phase.Closing?
    ensures DestroysPassed(cfg, Final(cfg, run).trace)
  {
    if run.Then? {
      StaysClosed(cfg, Final(cfg, run.before), run.event);
      RunPasses(cfg, run.before);
      RunKeeps(cfg, run.before);
      RunSorted(cfg, run.before);
      NextPasses(cfg, Final(cfg, run.before), run.event);
    }
  }

  lemma StaysClosed(cfg: Config, s: State, e: Event)
    requires Enabled(cfg, s, e)
    ensures s.phase.Closing? ==> Next(cfg, s, e).phase.Closing?
  {
    if s.phase.Closing? {
      FlushPolls(s, e.order);
    }
  }

  /** The user committed this message, or a later one of its key. */
  ghost predicate CommittedPast(cfg: Config, run: Run, m: Message) {
    exists x :: Happened(run, CommitOffset(x)) && KeyOf(cfg, x) == KeyOf(cfg, m) && m.serial <= x.serial
  }

  lemma PassedIffCommittedPast(cfg: Config, run: Run, m: Message)
    requires Legal(cfg, run) && cfg.userCommit
    ensures Passed(cfg, Final(cfg, run).trace, m) <==> CommittedPast(cfg, run, m)
  {
    forall x ensures Request(x) in Final(cfg, run).trace <==> Happened(run, CommitOffset(x)) {
      RequestedByTheUser(cfg, run, x);
    }
  }

  /** A vector holds exactly the accepted messages that were not passed yet. */
  lemma HeldIffNotPassed(cfg: Config, run: Run, m: Message)
    requires Legal(cfg, run) && cfg.userCommit && CanCommit(cfg, Final(cfg, run))
    requires Poll(m) in Final(cfg, run).trace && m.ok
    ensures Holds(cfg, Final(cfg, run), m) <==> !Passed(cfg, Final(cfg, run).trace, m)
  {
    var s := Final(cfg, run);
    RunKeeps(cfg, run);
    RunSorted(cfg, run);
    RunPasses(cfg, run);
    if Holds(cfg, s, m) {
      var i :| 0 <= i < |Vec(s, KeyOf(cfg, m))| && Vec(s, KeyOf(cfg, m))[i] == m;
      assert RequestsBelow(cfg, s.trace, KeyOf(cfg, m), m.serial);
    } else if Destroy(m) !in s.trace {
      assert Live(s.trace, m);
      assert InSlot(cfg, s, m);
    }
  }

  /** Wherever the user can commit, `commitOffset` of a polled message leaves that message in
      exactly one place if and only if the user has committed neither it nor a later message
      of its key before, which is exactly when its wait-destroy vector still holds it. */
  lemma CommitOffsetNeedsAHeldMessage(cfg: Config, run: Run, m: Message)
    requires Legal(cfg, run) && cfg.userCommit
    requires CanCommit(cfg, Final(cfg, run)) && Poll(m) in Final(cfg, run).trace && m.ok
    ensures
      var s := Final(cfg, run);
      && (InExactlyOnePlace(cfg, UserCommit(cfg, s, m), m) <==> !CommittedPast(cfg, run, m))
      && (Holds(cfg, s, m) <==> !CommittedPast(cfg, run, m))
  {
    PassedIffCommittedPast(cfg, run, m);
    HeldIffNotPassed(cfg, run, m);
    OnePlaceIffHeld(cfg, run, m);
  }

  lemma OnePlaceIffHeld(cfg: Config, run: Run, m: Message)
    requires Legal(cfg, run) && cfg.userCommit
    requires CanCommit(cfg, Final(cfg, run)) && Poll(m) in Final(cfg, run).trace && m.ok
    ensures
      var s := Final(cfg, run);
      InExactlyOnePlace(cfg, UserCommit(cfg, s, m), m) <==> Holds(cfg, s, m)
  {
    var s := Final(cfg, run);
    RunKeeps(cfg, run);
    if Holds(cfg, s, m) {
      OwnedExactlyOnce(cfg, Then(run, CommitOffset(m)), m);
    } else {
      var n := UserCommit(cfg, s, m);
      var k := KeyOf(cfg, m);
      assert Live(s.trace, m) ==> InSlot(cfg, s, m);
      assert n == AddWaitCommit(cfg, s, m);
      assert At(cfg, n, m, Slot(k)) && At(cfg, n, m, Gone);
    }
  }
}
