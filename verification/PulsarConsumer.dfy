/** The Pulsar consumer's acknowledgements: the latest unacknowledged id per topic, acked
    cumulatively at the end of a loop iteration when the timer says so, and by `stop` and the
    destructor.  The Pulsar client and the user's callback are the environment. */
module PulsarConsumer {
  import opened MapWalk
  import PartitionSuffix
  import PulsarTimer

  /** The empty id, or a real one */
  datatype MessageId = NoId | Id(serial: int)

  /** Who asked for an acknowledgement: the consumer itself, or the user's `commitOffset` */
  datatype By = Sdk | User

  datatype Act =
    | Consume(topic: string, id: MessageId)
    | Deliver(topic: string, id: MessageId, name: string)
    | Ack(topic: string, id: MessageId, ok: bool, origin: By)

  /** The callback is told the topic's name without a partition suffix. */
  function Delivery(topic: string, id: MessageId): Act {
    Deliver(topic, id, if topic == "" then "" else PartitionSuffix.RemovePartitionSuffix(topic))
  }

  datatype Phase =
    | Looping
    | Got(topic: string, id: MessageId)
    | InCallback(topic: string, id: MessageId)
    | Deferring
    | Exited
    | Stopped
    | Closed

  datatype State = State(phase: Phase, latest: map<string, MessageId>, before: int, trace: seq<Act>)

  datatype Config = Config(manualAck: bool, intervalMs: int)

  /** Is the acknowledgement of this topic in this round granted? */
  type Grant = string -> bool

  datatype Event =
    | Receive(topic: string, id: MessageId)
    | ReceiveFailed
    | Delivered
    | CommitOffset(topic: string, id: MessageId, ok: bool)
    | Return
    | Deferred(now: int, order: seq<string>, grant: Grant)
    | LoopEnds
    | Stop(order: seq<string>, grant: Grant)
    | Restart(now: int)
    | Destruct(order: seq<string>, grant: Grant)

  function Initial(now: int): State {
    State(Looping, map[], now, [])
  }

  function AckOne(s: State, t: string, grant: Grant): State {
    if t in s.latest && s.latest[t] != NoId then
      s.(trace := s.trace + [Ack(t, s.latest[t], grant(t), Sdk)],
         latest := if grant(t) then s.latest[t := NoId] else s.latest)
    else
      s
  }

  /** `acknowledgeAll`, in the given order of the hash map's keys */
  function AcknowledgeAll(s: State, order: seq<string>, grant: Grant): State {
    if order == [] then s
    else AckOne(AcknowledgeAll(s, order[..|order| - 1], grant), order[|order| - 1], grant)
  }

  ghost predicate Enabled(cfg: Config, s: State, e: Event) {
    match e
    case Receive(t, id) => s.phase.Looping? && id != NoId && t != ""
    case ReceiveFailed => s.phase.Looping?
    case Delivered => s.phase.Got?
    case CommitOffset(t, id, ok) => true
    case Return => s.phase.InCallback?
    case Deferred(now, order, grant) => s.phase.Deferring? && Enumerates(order, s.latest.Keys)
    case LoopEnds => s.phase.Looping?
    case Stop(order, grant) => s.phase.Exited? && Enumerates(order, s.latest.Keys)
    case Restart(now) => s.phase.Stopped?
    case Destruct(order, grant) => !s.phase.Got? && !s.phase.Closed? && Enumerates(order, s.latest.Keys)
  }

  /** `checkTimeThenAcknowledgeAll` */
  function CheckTime(cfg: Config, s: State, now: int, order: seq<string>, grant: Grant): State {
    if !cfg.manualAck && PulsarTimer.Fires(s.before, cfg.intervalMs, now) then
      AcknowledgeAll(s.(before := now), order, grant)
    else
      s
  }

  function Next(cfg: Config, s: State, e: Event): State
    requires Enabled(cfg, s, e)
  {
    match e
    case Receive(t, id) => s.(phase := Got(t, id), latest := s.latest[t := id], trace := s.trace + [Consume(t, id)])
    case ReceiveFailed => s.(phase := Deferring)
    case Delivered =>
      s.(phase := InCallback(s.phase.topic, s.phase.id), trace := s.trace + [Delivery(s.phase.topic, s.phase.id)])
    case CommitOffset(t, id, ok) => s.(trace := s.trace + [Ack(t, id, ok, User)])
    case Return => s.(phase := Deferring)
    case Deferred(now, order, grant) => CheckTime(cfg, s, now, order, grant).(phase := Looping)
    case LoopEnds => s.(phase := Exited)
    case Stop(order, grant) => AcknowledgeAll(s, order, grant).(phase := Stopped)
    case Restart(now) => s.(phase := Looping, before := now)
    case Destruct(order, grant) => AcknowledgeAll(s, order, grant).(phase := Closed)
  }

  datatype Run = Start(now: int) | Then(before: Run, event: Event)

  ghost predicate Legal(cfg: Config, run: Run)
    decreases run, 0
  {
    match run
    case Start(now) => true
    case Then(before, e) => Legal(cfg, before) && Enabled(cfg, Final(cfg, before), e)
  }

  ghost function Final(cfg: Config, run: Run): State
    requires Legal(cfg, run)
    decreases run, 1
  {
    match run
    case Start(now) => Initial(now)
    case Then(before, e) => Next(cfg, Final(cfg, before), e)
  }

  // ---- The reference: what the history says about a topic ----

  /** The id last consumed from a topic; the empty id if there is none */
  function LastConsumed(t: seq<Act>, topic: string): MessageId {
    if t == [] then NoId
    else
      var a := t[|t| - 1];
      if a.Consume? && a.topic == topic then a.id else LastConsumed(t[..|t| - 1], topic)
  }

  function LastAcked(t: seq<Act>, topic: string): MessageId {
    if t == [] then NoId
    else
      var a := t[|t| - 1];
      if a.Ack? && a.origin.Sdk? && a.ok && a.topic == topic then a.id else LastAcked(t[..|t| - 1], topic)
  }

  /** Did an acknowledgement of the topic succeed after its last message was consumed? */
  function AckedSince(t: seq<Act>, topic: string): bool {
    if t == [] then false
    else
      var a := t[|t| - 1];
      if a.topic == topic && a.Consume? then false
      else if a.topic == topic && a.Ack? && a.origin.Sdk? && a.ok then true
      else AckedSince(t[..|t| - 1], topic)
  }

  ghost predicate AllDelivered(t: seq<Act>) {
    forall topic, id :: Consume(topic, id) in t ==> Delivery(topic, id) in t
  }

  /** Of its own accord the consumer acks only a topic's latest consumed id, not yet acked,
      and only after everything consumed was delivered. */
  ghost predicate AckNext(t: seq<Act>, a: Act) {
    a.Ack? && a.origin.Sdk? ==>
      a.id != NoId && a.id == LastConsumed(t, a.topic) && !AckedSince(t, a.topic) && AllDelivered(t)
  }

  ghost predicate AcksOrdered(t: seq<Act>) {
    forall j :: 0 <= j < |t| ==> AckNext(t[..j], t[j])
  }

  /** The map entry of a topic, as the history determines it */
  ghost predicate EntryOk(s: State, topic: string) {
    && (topic in s.latest <==> LastConsumed(s.trace, topic) != NoId)
    && (topic in s.latest ==>
          s.latest[topic] == if AckedSince(s.trace, topic) then NoId else LastConsumed(s.trace, topic))
    && (AckedSince(s.trace, topic) ==> LastAcked(s.trace, topic) == LastConsumed(s.trace, topic))
  }

  ghost predicate Inv(s: State) {
    && (forall topic :: EntryOk(s, topic))
    && AcksOrdered(s.trace)
    && (forall topic, id :: Consume(topic, id) in s.trace ==>
          Delivery(topic, id) in s.trace || s.phase == Got(topic, id))
  }

  lemma Snoc(t: seq<Act>, a: Act, topic: string)
    ensures LastConsumed(t + [a], topic) == if a.Consume? && a.topic == topic then a.id else LastConsumed(t, topic)
    ensures LastAcked(t + [a], topic) ==
      if a.Ack? && a.origin.Sdk? && a.ok && a.topic == topic then a.id else LastAcked(t, topic)
    ensures AckedSince(t + [a], topic) ==
      if a.topic == topic && a.Consume? then false
      else if a.topic == topic && a.Ack? && a.origin.Sdk? && a.ok then true
      else AckedSince(t, topic)
  {
    assert (t + [a])[..|t|] == t;
  }

  lemma AcksSnoc(t: seq<Act>, a: Act)
    requires AcksOrdered(t) && AckNext(t, a)
    ensures AcksOrdered(t + [a])
  {
    var u := t + [a];
    forall j | 0 <= j < |u| ensures AckNext(u[..j], u[j]) {
      assert u[..j] == if j < |t| then t[..j] else t;
    }
  }

  lemma AckOneKeeps(s: State, t: string, grant: Grant)
    requires Inv(s) && !s.phase.Got?
    ensures Inv(AckOne(s, t, grant))
  {
    var n := AckOne(s, t, grant);
    if t in s.latest && s.latest[t] != NoId {
      var a := Ack(t, s.latest[t], grant(t), Sdk);
      assert EntryOk(s, t);
      AcksSnoc(s.trace, a);
      forall topic ensures EntryOk(n, topic) {
        assert EntryOk(s, topic);
        Snoc(s.trace, a, topic);
      }
    }
  }

  lemma {:induction false} AcknowledgeAllKeeps(s: State, order: seq<string>, grant: Grant)
    requires Inv(s) && !s.phase.Got?
    ensures
      var n := AcknowledgeAll(s, order, grant);
      && Inv(n) && n.phase == s.phase && n.before == s.before && n.latest.Keys == s.latest.Keys
      && (forall topic :: LastConsumed(n.trace, topic) == LastConsumed(s.trace, topic))
  {
    if order != [] {
      var o := order[..|order| - 1];
      AcknowledgeAllKeeps(s, o, grant);
      var b := AcknowledgeAll(s, o, grant);
      AckOneKeeps(b, order[|order| - 1], grant);
      var n := AckOne(b, order[|order| - 1], grant);
      forall topic ensures LastConsumed(n.trace, topic) == LastConsumed(s.trace, topic) {
        if n.trace != b.trace {
          Snoc(b.trace, n.trace[|n.trace| - 1], topic);
        }
      }
    }
  }

  lemma ActKeeps(cfg: Config, s: State, e: Event)
    requires Inv(s) && Enabled(cfg, s, e) && (e.Receive? || e.Delivered? || e.CommitOffset?)
    ensures Inv(Next(cfg, s, e))
  {
    var n := Next(cfg, s, e);
    var a := n.trace[|n.trace| - 1];
    assert n.trace == s.trace + [a];
    AcksSnoc(s.trace, a);
    forall topic ensures EntryOk(n, topic) {
      assert EntryOk(s, topic);
      Snoc(s.trace, a, topic);
    }
  }

  lemma SameStore(s: State, n: State)
    requires Inv(s) && n.latest == s.latest && n.trace == s.trace && !s.phase.Got?
    ensures Inv(n)
  {
    forall topic ensures EntryOk(n, topic) {
      assert EntryOk(s, topic);
    }
  }

  lemma NextKeeps(cfg: Config, s: State, e: Event)
    requires Inv(s) && Enabled(cfg, s, e)
    ensures Inv(Next(cfg, s, e))
  {
    match e
    case Receive(t, id) => ActKeeps(cfg, s, e);
    case Delivered => ActKeeps(cfg, s, e);
    case CommitOffset(t, id, ok) => ActKeeps(cfg, s, e);
    case ReceiveFailed => SameStore(s, Next(cfg, s, e));
    case Return => SameStore(s, Next(cfg, s, e));
    case LoopEnds => SameStore(s, Next(cfg, s, e));
    case Restart(now) => SameStore(s, Next(cfg, s, e));
    case Deferred(now, order, grant) =>
      SameStore(s, s.(before := now));
      AcknowledgeAllKeeps(s.(before := now), order, grant);
      SameStore(CheckTime(cfg, s, now, order, grant), Next(cfg, s, e));
    case Stop(order, grant) =>
      AcknowledgeAllKeeps(s, order, grant);
      SameStore(AcknowledgeAll(s, order, grant), Next(cfg, s, e));
    case Destruct(order, grant) =>
      AcknowledgeAllKeeps(s, order, grant);
      SameStore(AcknowledgeAll(s, order, grant), Next(cfg, s, e));
  }

  lemma {:induction false} RunKeeps(cfg: Config, run: Run)
    requires Legal(cfg, run)
    ensures Inv(Final(cfg, run))
  {
    if run.Then? {
      RunKeeps(cfg, run.before);
      NextKeeps(cfg, Final(cfg, run.before), run.event);
    } else {
      forall topic ensures EntryOk(Initial(run.now), topic) {}
    }
  }

  // ---- What comes from outside is what the events say ----

  /** What the client handed over, what the callback got, and what the user acknowledged */
  function External(run: Run): seq<Act> {
    match run
    case Start(now) => []
    case Then(before, Receive(topic, id)) => External(before) + [Consume(topic, id)]
    case Then(before, Delivered) => External(before) + LastReceived(before)
    case Then(before, CommitOffset(topic, id, ok)) => External(before) + [Ack(topic, id, ok, User)]
    case Then(before, e) => External(before)
  }

  /** The delivery of the last received message */
  function LastReceived(run: Run): seq<Act> {
    match run
    case Start(now) => []
    case Then(before, Receive(topic, id)) => [Delivery(topic, id)]
    case Then(before, e) => LastReceived(before)
  }

  /** The trace without the acknowledgements the consumer makes itself */
  function NotOwn(t: seq<Act>): seq<Act> {
    if t == [] then []
    else
      var a := t[|t| - 1];
      NotOwn(t[..|t| - 1]) + if a.Ack? && a.origin.Sdk? then [] else [a]
  }

  lemma NotOwnSnoc(t: seq<Act>, a: Act)
    ensures NotOwn(t + [a]) == NotOwn(t) + if a.Ack? && a.origin.Sdk? then [] else [a]
  {
    assert (t + [a])[..|t|] == t;
  }

  lemma {:induction false} RoundIsOwn(s: State, order: seq<string>, grant: Grant)
    ensures NotOwn(AcknowledgeAll(s, order, grant).trace) == NotOwn(s.trace)
    ensures AcknowledgeAll(s, order, grant).phase == s.phase
  {
    if order != [] {
      var k := order[|order| - 1];
      RoundIsOwn(s, order[..|order| - 1], grant);
      var b := AcknowledgeAll(s, order[..|order| - 1], grant);
      if k in b.latest && b.latest[k] != NoId {
        NotOwnSnoc(b.trace, Ack(k, b.latest[k], grant(k), Sdk));
        assert NotOwn(b.trace) + [] == NotOwn(b.trace);
      }
    }
  }

  lemma {:induction false} GotIsReceived(cfg: Config, run: Run)
    requires Legal(cfg, run)
    ensures Final(cfg, run).phase.Got? ==> LastReceived(run) == [Delivery(Final(cfg, run).phase.topic, Final(cfg, run).phase.id)]
  {
    if run.Then? {
      GotIsReceived(cfg, run.before);
      var s := Final(cfg, run.before);
      match run.event
      case Deferred(now, order, grant) =>
      case Stop(order, grant) =>
      case Destruct(order, grant) =>
      case _ =>
    }
  }

  /** Everything in the trace but the consumer's own acknowledgements is, in order, exactly
      what was received, that message's delivery, and what the user committed. */
  lemma {:induction false} ExternalIsHistory(cfg: Config, run: Run)
    requires Legal(cfg, run)
    ensures NotOwn(Final(cfg, run).trace) == External(run)
  {
    if run.Then? {
      ExternalIsHistory(cfg, run.before);
      GotIsReceived(cfg, run.before);
      var s := Final(cfg, run.before);
      match run.event
      case Receive(topic, id) => NotOwnSnoc(s.trace, Consume(topic, id));
      case Delivered => NotOwnSnoc(s.trace, Delivery(s.phase.topic, s.phase.id));
      case CommitOffset(topic, id, ok) => NotOwnSnoc(s.trace, Ack(topic, id, ok, User));
      case Deferred(now, order, grant) => RoundIsOwn(s.(before := now), order, grant);
      case Stop(order, grant) => RoundIsOwn(s, order, grant);
      case Destruct(order, grant) => RoundIsOwn(s, order, grant);
      case _ =>
    }
  }

  // ---- The theorems ----

  /** On every run, a topic's entry is the empty id exactly when its latest consumed message
      was acked since, and is that message's id otherwise, whatever acks failed and in
      whatever order the map was walked. */
  lemma PendingEntry(cfg: Config, run: Run, topic: string)
    requires Legal(cfg, run) && LastConsumed(Final(cfg, run).trace, topic) != NoId
    ensures
      var s := Final(cfg, run);
      && topic in s.latest
      && (s.latest[topic] == NoId <==> AckedSince(s.trace, topic))
      && (s.latest[topic] != NoId ==> s.latest[topic] == LastConsumed(s.trace, topic))
  {
    RunKeeps(cfg, run);
    assert EntryOk(Final(cfg, run), topic);
  }

  /** Every id the consumer acks of its own accord is the topic's latest, and by then that
      message and every other one consumed had been delivered. */
  lemma AckedAfterDelivery(cfg: Config, run: Run, j: nat)
    requires Legal(cfg, run) && j < |Final(cfg, run).trace|
    requires Final(cfg, run).trace[j].Ack? && Final(cfg, run).trace[j].origin.Sdk?
    ensures
      var t := Final(cfg, run).trace;
      && t[j].id == LastConsumed(t[..j], t[j].topic)
      && Delivery(t[j].topic, t[j].id) in t[..j]
      && AllDelivered(t[..j])
  {
    RunKeeps(cfg, run);
    var t := Final(cfg, run).trace;
    assert AckNext(t[..j], t[j]);
    LastConsumedIsConsumed(t[..j], t[j].topic);
  }

  lemma {:induction false} LastConsumedIsConsumed(t: seq<Act>, topic: string)
    requires LastConsumed(t, topic) != NoId
    ensures Consume(topic, LastConsumed(t, topic)) in t
  {
    var a := t[|t| - 1];
    if !(a.Consume? && a.topic == topic) {
      LastConsumedIsConsumed(t[..|t| - 1], topic);
    }
  }

  ghost predicate OwnAck(t: seq<Act>, a: Act) {
    a in t && a.Ack? && a.origin.Sdk?
  }

  ghost predicate EverStopped(run: Run) {
    run.Then? && (run.event.Stop? || run.event.Destruct? || EverStopped(run.before))
  }

  /** With manual acknowledgement only `stop` and the destructor make the consumer ack
      something itself: no other step does, and before the first of them nothing is acked but
      through `commitOffset`. */
  lemma {:induction false} ManualAcksNothingBeforeStop(cfg: Config, run: Run)
    requires Legal(cfg, run) && cfg.manualAck
    ensures !EverStopped(run) ==> forall a :: a in Final(cfg, run).trace && a.Ack? ==> a.origin.User?
    ensures run.Then? && !run.event.Stop? && !run.event.Destruct? ==>
      forall a :: OwnAck(Final(cfg, run).trace, a) ==> OwnAck(Final(cfg, run.before).trace, a)
  {
    if run.Then? {
      ManualAcksNothingBeforeStop(cfg, run.before);
    }
  }

  /** A round visits every key once: what is still pending afterwards was refused. */
  lemma {:induction false} RoundEffect(s: State, order: seq<string>, grant: Grant, topic: string)
    requires forall i, j :: 0 <= i < j < |order| ==> order[i] != order[j]
    requires topic in s.latest
    ensures
      var n := AcknowledgeAll(s, order, grant);
      && topic in n.latest
      && (topic in order ==> n.latest[topic] == if grant(topic) then NoId else s.latest[topic])
      && (topic in order && s.latest[topic] != NoId ==> Ack(topic, s.latest[topic], grant(topic), Sdk) in n.trace)
      && (topic !in order ==> n.latest[topic] == s.latest[topic])
      && (forall a :: a in s.trace ==> a in n.trace)
  {
    if order != [] {
      var o, k := order[..|order| - 1], order[|order| - 1];
      RoundEffect(s, o, grant, topic);
      assert order == o + [k];
      assert k !in o;
    }
  }

  // ---- When rounds take place ----

  /** The times at which the timer was checked since the loop last started */
  function Checks(cfg: Config, run: Run): seq<int> {
    match run
    case Start(now) => []
    case Then(before, Restart(now)) => []
    case Then(before, Deferred(now, order, grant)) => Checks(cfg, before) + if cfg.manualAck then [] else [now]
    case Then(before, e) => Checks(cfg, before)
  }

  function StartTime(run: Run): int {
    match run
    case Start(now) => now
    case Then(before, Restart(now)) => now
    case Then(before, e) => StartTime(before)
  }

  /** The next check, at this time, fires. */
  predicate Due(cfg: Config, run: Run, now: int) {
    PulsarTimer.FiredAt(StartTime(run), cfg.intervalMs, Checks(cfg, run) + [now], |Checks(cfg, run)|)
  }

  /** The events with an acknowledgement round: `stop`, the destructor, and a check that fires */
  predicate HasRound(cfg: Config, run: Run, e: Event) {
    e.Stop? || e.Destruct? || (e.Deferred? && !cfg.manualAck && Due(cfg, run, e.now))
  }

  /** The rounds that the timer started since then */
  function TimedRounds(cfg: Config, run: Run): nat {
    match run
    case Start(now) => 0
    case Then(before, e) =>
      if e.Restart? then 0
      else TimedRounds(cfg, before) + if e.Deferred? && HasRound(cfg, before, e) then 1 else 0
  }

  lemma NextTimer(cfg: Config, s: State, e: Event)
    requires Enabled(cfg, s, e)
    ensures Next(cfg, s, e).before ==
      if e.Restart? || (e.Deferred? && !cfg.manualAck && PulsarTimer.Fires(s.before, cfg.intervalMs, e.now)) then e.now
      else s.before
  {
    match e
    case Deferred(now, order, grant) => AcknowledgeAllKeepsTimer(s.(before := now), order, grant);
    case Stop(order, grant) => AcknowledgeAllKeepsTimer(s, order, grant);
    case Destruct(order, grant) => AcknowledgeAllKeepsTimer(s, order, grant);
    case _ =>
  }

  lemma DueFires(cfg: Config, run: Run, now: int)
    ensures Due(cfg, run, now) <==>
            PulsarTimer.Fires(PulsarTimer.Armed(StartTime(run), cfg.intervalMs, Checks(cfg, run)), cfg.intervalMs, now)
  {
    var c := Checks(cfg, run);
    assert (c + [now])[..|c|] == c;
  }

  lemma ChecksSnoc(start: int, interval: int, checks: seq<int>, now: int)
    ensures
      var fires := PulsarTimer.Fires(PulsarTimer.Armed(start, interval, checks), interval, now);
      && PulsarTimer.Armed(start, interval, checks + [now]) == (if fires then now else PulsarTimer.Armed(start, interval, checks))
      && PulsarTimer.Rounds(start, interval, checks + [now]) == PulsarTimer.Rounds(start, interval, checks) + if fires then 1 else 0
  {
    assert (checks + [now])[..|checks|] == checks;
  }

  lemma {:induction false} ArmedByRun(cfg: Config, run: Run)
    requires Legal(cfg, run)
    ensures Final(cfg, run).before == PulsarTimer.Armed(StartTime(run), cfg.intervalMs, Checks(cfg, run))
    ensures TimedRounds(cfg, run) == PulsarTimer.Rounds(StartTime(run), cfg.intervalMs, Checks(cfg, run))
  {
    if run.Then? {
      ArmedByRun(cfg, run.before);
      NextTimer(cfg, Final(cfg, run.before), run.event);
      var c := Checks(cfg, run.before);
      if run.event.Deferred? && !cfg.manualAck {
        DueFires(cfg, run.before, run.event.now);
        ChecksSnoc(StartTime(run), cfg.intervalMs, c, run.event.now);
      } else if run.event.Deferred? {
        assert c + [] == c;
      }
    }
  }

  /** What an event of this kind walks through */
  function Walked(e: Event, s: State): State {
    if e.Deferred? then s.(before := e.now) else s
  }

  lemma RoundState(cfg: Config, run: Run, e: Event)
    requires Legal(cfg, Then(run, e)) && (e.Deferred? || e.Stop? || e.Destruct?)
    ensures
      var s, n := Final(cfg, run), Final(cfg, Then(run, e));
      if HasRound(cfg, run, e) then
        var r := AcknowledgeAll(Walked(e, s), e.order, e.grant);
        n.trace == r.trace && n.latest == r.latest
      else n.trace == s.trace && n.latest == s.latest
  {
    ArmedByRun(cfg, run);
    if e.Deferred? {
      DueFires(cfg, run, e.now);
    }
  }

  /** After `stop`, and after the destructor, in either mode, and after a check that fires:
      every topic with something pending got an ack attempt of its latest id, committed by the
      user or not; and if all of them were granted, the last acked id of every topic is its
      last consumed id. */
  lemma RoundAcksEverything(cfg: Config, run: Run, last: Event, topic: string)
    requires Legal(cfg, Then(run, last)) && HasRound(cfg, run, last)
    requires LastConsumed(Final(cfg, run).trace, topic) != NoId
    ensures
      var s, n := Final(cfg, run), Final(cfg, Then(run, last));
      && (!AckedSince(s.trace, topic) ==> Ack(topic, LastConsumed(s.trace, topic), last.grant(topic), Sdk) in n.trace)
      && ((forall k :: k in s.latest && s.latest[k] != NoId ==> last.grant(k)) ==>
            LastAcked(n.trace, topic) == LastConsumed(n.trace, topic) == LastConsumed(s.trace, topic))
  {
    var s, n := Final(cfg, run), Final(cfg, Then(run, last));
    RunKeeps(cfg, run);
    RunKeeps(cfg, Then(run, last));
    RoundState(cfg, run, last);
    assert EntryOk(s, topic) && EntryOk(n, topic);
    var b := Walked(last, s);
    SameStore(s, b);
    RoundEffect(b, last.order, last.grant, topic);
    AcknowledgeAllKeeps(b, last.order, last.grant);
  }

  /** The acknowledgements of a walk, in its order */
  ghost function RoundAcks(latest: map<string, MessageId>, order: seq<string>, grant: Grant): seq<Act> {
    if order == [] then []
    else
      var k := order[|order| - 1];
      RoundAcks(latest, order[..|order| - 1], grant)
      + if k in latest && latest[k] != NoId then [Ack(k, latest[k], grant(k), Sdk)] else []
  }

  lemma {:induction false} RoundTrace(s: State, order: seq<string>, grant: Grant)
    requires forall i, j :: 0 <= i < j < |order| ==> order[i] != order[j]
    ensures AcknowledgeAll(s, order, grant).trace == s.trace + RoundAcks(s.latest, order, grant)
    ensures AcknowledgeAll(s, order, grant).latest.Keys == s.latest.Keys
    ensures forall k :: k in s.latest && k !in order ==> AcknowledgeAll(s, order, grant).latest[k] == s.latest[k]
  {
    if order == [] {
      assert s.trace + [] == s.trace;
    } else {
      var o, k := order[..|order| - 1], order[|order| - 1];
      RoundTrace(s, o, grant);
      assert order == o + [k] && k !in o;
      var acks := RoundAcks(s.latest, o, grant);
      assert s.trace + acks + [] == s.trace + acks;
    }
  }

  lemma {:induction false} RoundAcksMean(latest: map<string, MessageId>, order: seq<string>, grant: Grant, a: Act)
    requires forall i, j :: 0 <= i < j < |order| ==> order[i] != order[j]
    ensures a in RoundAcks(latest, order, grant) <==>
      a.topic in order && a.topic in latest && latest[a.topic] != NoId && a == Ack(a.topic, latest[a.topic], grant(a.topic), Sdk)
    ensures multiset(RoundAcks(latest, order, grant))[a] <= 1
  {
    if order != [] {
      var o, k := order[..|order| - 1], order[|order| - 1];
      RoundAcksMean(latest, o, grant, a);
      assert order == o + [k] && k !in o;
      var acks := RoundAcks(latest, o, grant);
      assert a !in acks ==> multiset(acks)[a] == 0;
    }
  }

  /** What an event adds to the consumer's own acknowledgements, exactly: if it has a round,
      one for each topic whose latest message was not acked since, of that message's id and
      with the client's answer; otherwise none. */
  lemma OwnAcksIff(cfg: Config, run: Run, e: Event, topic: string, id: MessageId, ok: bool)
    requires Legal(cfg, Then(run, e))
    ensures
      var t, u := Final(cfg, run).trace, Final(cfg, Then(run, e)).trace;
      var a := Ack(topic, id, ok, Sdk);
      multiset(u)[a] == multiset(t)[a] +
        if HasRound(cfg, run, e) && !AckedSince(t, topic) && id != NoId && id == LastConsumed(t, topic) && ok == e.grant(topic)
        then 1 else 0
  {
    var s, n := Final(cfg, run), Final(cfg, Then(run, e));
    var a := Ack(topic, id, ok, Sdk);
    RunKeeps(cfg, run);
    assert EntryOk(s, topic);
    if e.Deferred? || e.Stop? || e.Destruct? {
      RoundState(cfg, run, e);
      if HasRound(cfg, run, e) {
        var acks := RoundAcks(s.latest, e.order, e.grant);
        RoundTrace(Walked(e, s), e.order, e.grant);
        RoundAcksMean(s.latest, e.order, e.grant, a);
        assert multiset(s.trace + acks)[a] == multiset(s.trace)[a] + multiset(acks)[a];
        assert a in acks <==> multiset(acks)[a] > 0;
      }
    } else {
      OtherTrace(cfg, s, e, a);
    }
  }

  lemma OtherTrace(cfg: Config, s: State, e: Event, a: Act)
    requires Enabled(cfg, s, e) && !e.Deferred? && !e.Stop? && !e.Destruct? && a.Ack? && a.origin.Sdk?
    ensures multiset(Next(cfg, s, e).trace)[a] == multiset(s.trace)[a]
  {
  }

  lemma {:induction false} AcknowledgeAllKeepsTimer(s: State, order: seq<string>, grant: Grant)
    ensures AcknowledgeAll(s, order, grant).before == s.before
  {
    if order != [] {
      AcknowledgeAllKeepsTimer(s, order[..|order| - 1], grant);
    }
  }

  /** On every run with a clock that does not go back, n timer-driven rounds need n whole
      intervals of real time since the loop last started, whatever was refused in between. */
  lemma TimedRoundsNeedTime(cfg: Config, run: Run)
    requires Legal(cfg, run) && PulsarTimer.Nondecreasing(StartTime(run), Checks(cfg, run))
    ensures
      var c, unit := Checks(cfg, run), cfg.intervalMs * 1_000_000;
      c != [] ==> TimedRounds(cfg, run) * unit <= c[|c| - 1] - StartTime(run)
  {
    ArmedByRun(cfg, run);
    PulsarTimer.ArmedWithin(StartTime(run), cfg.intervalMs, Checks(cfg, run));
    PulsarTimer.RoundsNeedTime(StartTime(run), cfg.intervalMs, Checks(cfg, run), cfg.intervalMs * 1_000_000);
  }
}
