/** The Pulsar consumer itself: the map and the timer updated in place.  Each method is proved
    to do what the state machine of `PulsarConsumer` does, so what holds of every run holds of
    every use of this class. */
module PulsarConsumerLoop {
  import opened MapWalk
  import opened PulsarConsumer
  import opened PulsarTimer
  import PartitionSuffix

  datatype Commit = Commit(topic: string, id: MessageId, ok: bool)

  datatype Received = Nothing | Message(topic: string, id: MessageId)

  /** One iteration: what is received, the user's `commitOffset` calls, and the deferred check */
  datatype Turn = Turn(received: Received, commits: seq<Commit>, now: int, order: seq<string>, grant: Grant)

  ghost function Commits(run: Run, commits: seq<Commit>): Run {
    if commits == [] then run
    else
      var c := commits[|commits| - 1];
      Then(Commits(run, commits[..|commits| - 1]), CommitOffset(c.topic, c.id, c.ok))
  }

  ghost function AfterReceive(run: Run, turn: Turn): Run {
    match turn.received
    case Nothing => Then(run, ReceiveFailed)
    case Message(t, id) => Then(Commits(Then(Then(run, Receive(t, id)), Delivered), turn.commits), Return)
  }

  ghost function AfterTurn(run: Run, turn: Turn): Run {
    Then(AfterReceive(run, turn), Deferred(turn.now, turn.order, turn.grant))
  }

  ghost function AfterTurns(run: Run, turns: seq<Turn>): Run {
    if turns == [] then run else AfterTurn(AfterTurns(run, turns[..|turns| - 1]), turns[|turns| - 1])
  }

  // ---- The events of an iteration, in order ----

  ghost function Events(run: Run): seq<Event> {
    if run.Then? then Events(run.before) + [run.event] else []
  }

  function CommitEvents(commits: seq<Commit>): seq<Event> {
    seq(|commits|, i requires 0 <= i < |commits| => CommitOffset(commits[i].topic, commits[i].id, commits[i].ok))
  }

  function TurnEvents(turn: Turn): seq<Event> {
    (match turn.received
     case Nothing => [ReceiveFailed]
     case Message(t, id) => [Receive(t, id), Delivered] + CommitEvents(turn.commits) + [Return])
    + [Deferred(turn.now, turn.order, turn.grant)]
  }

  function AllTurnEvents(turns: seq<Turn>): seq<Event> {
    if turns == [] then [] else AllTurnEvents(turns[..|turns| - 1]) + TurnEvents(turns[|turns| - 1])
  }

  lemma {:induction false} EventsOfCommits(run: Run, commits: seq<Commit>)
    ensures Events(Commits(run, commits)) == Events(run) + CommitEvents(commits)
  {
    if commits != [] {
      var n := |commits| - 1;
      EventsOfCommits(run, commits[..n]);
      assert CommitEvents(commits) == CommitEvents(commits[..n]) + [CommitOffset(commits[n].topic, commits[n].id, commits[n].ok)];
    }
  }

  lemma EventsOfTurn(run: Run, turn: Turn)
    ensures Events(AfterTurn(run, turn)) == Events(run) + TurnEvents(turn)
  {
    if turn.received.Message? {
      var r := Then(run, Receive(turn.received.topic, turn.received.id));
      assert Events(r) == Events(run) + [Receive(turn.received.topic, turn.received.id)];
      assert Events(Then(r, Delivered)) == Events(r) + [Delivered];
      EventsOfCommits(Then(r, Delivered), turn.commits);
    }
  }

  lemma {:induction false} EventsOfTurns(run: Run, turns: seq<Turn>)
    ensures Events(AfterTurns(run, turns)) == Events(run) + AllTurnEvents(turns)
  {
    if turns != [] {
      EventsOfTurns(run, turns[..|turns| - 1]);
      EventsOfTurn(AfterTurns(run, turns[..|turns| - 1]), turns[|turns| - 1]);
    }
  }

  lemma {:induction false} CommitsLegal(cfg: Config, run: Run, commits: seq<Commit>, n: nat)
    requires Legal(cfg, Commits(run, commits)) && n <= |commits|
    ensures Legal(cfg, Commits(run, commits[..n]))
  {
    if n < |commits| {
      var p := commits[..|commits| - 1];
      CommitsLegal(cfg, run, p, n);
      assert p[..n] == commits[..n];
    } else {
      assert commits[..n] == commits;
    }
  }

  lemma AfterReceiveLegal(cfg: Config, run: Run, turn: Turn)
    requires Legal(cfg, AfterReceive(run, turn))
    ensures Legal(cfg, run)
    ensures turn.received.Message? ==>
      var r := Then(run, Receive(turn.received.topic, turn.received.id));
      Legal(cfg, r) && Legal(cfg, Then(r, Delivered)) && Legal(cfg, Commits(Then(r, Delivered), turn.commits))
  {
    if turn.received.Message? {
      var r := Then(Then(run, Receive(turn.received.topic, turn.received.id)), Delivered);
      assert Legal(cfg, Commits(r, turn.commits));
      CommitsLegal(cfg, r, turn.commits, 0);
      assert Legal(cfg, r) && Legal(cfg, r.before);
    } else {
      assert Legal(cfg, AfterReceive(run, turn).before);
    }
  }

  lemma {:induction false} TurnsLegal(cfg: Config, run: Run, turns: seq<Turn>, n: nat)
    requires Legal(cfg, AfterTurns(run, turns)) && n <= |turns|
    ensures Legal(cfg, AfterTurns(run, turns[..n]))
  {
    if n < |turns| {
      var p := turns[..|turns| - 1];
      assert Legal(cfg, AfterReceive(AfterTurns(run, p), turns[|turns| - 1]));
      AfterReceiveLegal(cfg, AfterTurns(run, p), turns[|turns| - 1]);
      TurnsLegal(cfg, run, p, n);
      assert p[..n] == turns[..n];
    } else {
      assert turns[..n] == turns;
    }
  }

  class Consumer {
    const manualAck: bool
    const timer: Timer
    var running: bool
    var topicLatestMsgId: map<string, MessageId>

    ghost const cfg: Config
    ghost var phase: Phase
    ghost var trace: seq<Act>
    ghost var run: Run

    ghost function View(): State
      reads this, timer
    {
      State(phase, topicLatestMsgId, timer.before, trace)
    }

    ghost predicate Valid()
      reads this, timer
    {
      && cfg == Config(manualAck, timer.intervalMs)
      && Legal(cfg, run) && View() == Final(cfg, run)
    }

    /** The consumer as its loop starts: the timer starts with it. */
    constructor (manualAck: bool, intervalMs: int, now: int)
      ensures Valid() && run == Run.Start(now) && running && fresh(timer)
      ensures cfg == Config(manualAck, intervalMs)
    {
      this.manualAck := manualAck;
      var t := new Timer(intervalMs);
      t.Start(now);
      timer := t;
      running := true;
      topicLatestMsgId := map[];
      cfg := Config(manualAck, intervalMs);
      phase, trace, run := Looping, [], Run.Start(now);
    }

    /** `acknowledge`: a cumulative acknowledgement that the client grants or refuses */
    method Acknowledge(topic: string, id: MessageId, granted: bool, ghost origin: By) returns (ok: bool)
      modifies this`trace
      ensures ok == granted && trace == old(trace) + [Ack(topic, id, granted, origin)]
    {
      trace := trace + [Ack(topic, id, granted, origin)];
      ok := granted;
    }

    /** Acknowledges every pending id; a granted one is no longer pending. */
    method AcknowledgeAll(order: seq<string>, grant: Grant)
      requires Enumerates(order, topicLatestMsgId.Keys)
      modifies this
      ensures View() == PulsarConsumer.AcknowledgeAll(old(View()), order, grant)
      ensures run == old(run) && running == old(running) && phase == old(phase)
    {
      for i := 0 to |order|
        invariant View() == PulsarConsumer.AcknowledgeAll(old(View()), order[..i], grant)
        invariant topicLatestMsgId.Keys == old(topicLatestMsgId.Keys)
        invariant run == old(run) && running == old(running) && phase == old(phase)
      {
        assert order[..i + 1][..i] == order[..i];
        var topic := order[i];
        assert topic in order;
        var id := topicLatestMsgId[topic];
        if id != NoId {
          var ok := Acknowledge(topic, id, grant(topic), Sdk);
          if ok {
            topicLatestMsgId := topicLatestMsgId[topic := NoId];
          }
        }
      }
      assert order[..|order|] == order;
    }

    /** `checkTimeThenAcknowledgeAll`, at the end of every iteration */
    method CheckTimeThenAcknowledgeAll(now: int, order: seq<string>, grant: Grant)
      requires Valid() && Enabled(cfg, View(), Deferred(now, order, grant))
      modifies this, timer
      ensures Valid() && run == Then(old(run), Deferred(now, order, grant)) && running == old(running)
      ensures phase == Looping
    {
      if !manualAck {
        var intervalMs := timer.Stop(now);
        if intervalMs >= timer.intervalMs {
          AcknowledgeAll(order, grant);
        }
      }
      phase := Looping;
      run := Then(run, Deferred(now, order, grant));
    }

    method CommitOffset(c: Commit)
      requires Valid()
      modifies this
      ensures Valid() && run == Then(old(run), Event.CommitOffset(c.topic, c.id, c.ok)) && running == old(running)
      ensures phase == old(phase)
    {
      var ok := Acknowledge(c.topic, c.id, c.ok, User);
      run := Then(run, Event.CommitOffset(c.topic, c.id, c.ok));
    }

    /** A received message is remembered, then delivered; the callback may commit. */
    method Handle(topic: string, id: MessageId, commits: seq<Commit>)
      requires Valid() && phase.Looping?
      requires Legal(cfg, Then(run, Receive(topic, id)))
      requires Legal(cfg, Then(Then(run, Receive(topic, id)), Delivered))
      requires Legal(cfg, Commits(Then(Then(run, Receive(topic, id)), Delivered), commits))
      modifies this
      ensures Valid() && phase == Deferring && running == old(running)
      ensures run == Then(Commits(Then(Then(old(run), Receive(topic, id)), Delivered), commits), Return)
    {
      topicLatestMsgId := topicLatestMsgId[topic := id];
      var name := PartitionSuffix.RemovePartitionSuffix(topic);
      trace := trace + [Consume(topic, id)] + [Deliver(topic, id, name)];
      phase := InCallback(topic, id);
      run := Then(Then(run, Receive(topic, id)), Delivered);
      ghost var start := run;
      for i := 0 to |commits|
        invariant Valid() && run == Commits(start, commits[..i]) && running == old(running)
        invariant phase == InCallback(topic, id)
      {
        assert commits[..i + 1][..i] == commits[..i];
        CommitOffset(commits[i]);
      }
      assert commits[..|commits|] == commits;
      phase := Deferring;
      run := Then(run, Return);
    }

    method LoopTurn(turn: Turn)
      requires Valid() && phase.Looping? && Legal(cfg, AfterTurn(run, turn))
      modifies this, timer
      ensures Valid() && phase.Looping? && run == AfterTurn(old(run), turn) && running == old(running)
      ensures Events(run) == Events(old(run)) + TurnEvents(turn)
    {
      EventsOfTurn(run, turn);
      assert Legal(cfg, AfterReceive(run, turn));
      AfterReceiveLegal(cfg, run, turn);
      match turn.received {
        case Nothing =>
          phase := Deferring;
          run := Then(run, ReceiveFailed);
        case Message(topic, id) =>
          Handle(topic, id, turn.commits);
      }
      CheckTimeThenAcknowledgeAll(turn.now, turn.order, turn.grant);
    }

    /** `consumeLoop`: the given turns, until `running` is seen cleared */
    method ConsumeLoop(turns: seq<Turn>)
      requires Valid() && phase.Looping? && Legal(cfg, AfterTurns(run, turns))
      modifies this, timer
      ensures Valid() && phase.Exited? && run == Then(AfterTurns(old(run), turns), LoopEnds) && running == old(running)
      ensures Events(run) == Events(old(run)) + AllTurnEvents(turns) + [LoopEnds]
    {
      EventsOfTurns(run, turns);
      for i := 0 to |turns|
        invariant Valid() && phase.Looping? && run == AfterTurns(old(run), turns[..i]) && running == old(running)
      {
        assert turns[..i + 1][..i] == turns[..i];
        TurnsLegal(cfg, old(run), turns, i + 1);
        LoopTurn(turns[i]);
      }
      assert turns[..|turns|] == turns;
      phase := Exited;
      run := Then(run, LoopEnds);
    }

    /** `stop` after the loop was joined; without a running loop it does nothing. */
    method Stop(order: seq<string>, grant: Grant)
      requires Valid() && (running ==> phase.Exited? && Enumerates(order, topicLatestMsgId.Keys))
      modifies this
      ensures Valid() && !running
      ensures old(running) ==>
        phase.Stopped? && run == Then(old(run), Event.Stop(order, grant)) && EveryTopicAcked(old(topicLatestMsgId), grant)
      ensures !old(running) ==> View() == old(View()) && run == old(run)
    {
      if !running {
        return;
      }
      ghost var before := run;
      ghost var latest := topicLatestMsgId;
      running := false;
      AcknowledgeAll(order, grant);
      phase := Stopped;
      run := Then(run, Event.Stop(order, grant));
      LastRound(before, latest, grant);
    }

    /** `start` after a `stop`: the map is kept, the timer starts again. */
    method Start(now: int) returns (ok: bool)
      requires Valid() && (running || phase.Stopped?)
      modifies this, timer
      ensures Valid() && running && ok == !old(running)
      ensures ok ==> phase.Looping? && run == Then(old(run), Restart(now)) && topicLatestMsgId == old(topicLatestMsgId)
      ensures !ok ==> View() == old(View()) && run == old(run)
    {
      ok := !running;
      if ok {
        running := true;
        timer.Start(now);
        phase := Looping;
        run := Then(run, Restart(now));
      }
    }

    /** The destructor of a consumer whose client exists, at any time but while a message is on
        its way to the callback */
    method Destruct(order: seq<string>, grant: Grant)
      requires Valid() && !phase.Got? && !phase.Closed? && Enumerates(order, topicLatestMsgId.Keys)
      modifies this
      ensures Valid() && phase.Closed? && run == Then(old(run), Event.Destruct(order, grant))
      ensures EveryTopicAcked(old(topicLatestMsgId), grant)
    {
      ghost var before := run;
      ghost var latest := topicLatestMsgId;
      AcknowledgeAll(order, grant);
      phase := Closed;
      run := Then(run, Event.Destruct(order, grant));
      LastRound(before, latest, grant);
    }

    /** If every pending id was granted, the last acked id of each topic is its last consumed
        one. */
    ghost predicate EveryTopicAcked(latest: map<string, MessageId>, grant: Grant)
      reads this
    {
      (forall k :: k in latest && latest[k] != NoId ==> grant(k)) ==>
        forall t :: LastConsumed(trace, t) != NoId ==> LastAcked(trace, t) == LastConsumed(trace, t)
    }

    lemma LastRound(before: Run, latest: map<string, MessageId>, grant: Grant)
      requires Valid() && Legal(cfg, before) && Final(cfg, before).latest == latest
      requires run.Then? && run.before == before && (run.event.Stop? || run.event.Destruct?) && run.event.grant == grant
      ensures EveryTopicAcked(latest, grant)
    {
      var s := Final(cfg, before);
      RunKeeps(cfg, before);
      AcknowledgeAllKeeps(s, run.event.order, grant);
      if forall k :: k in latest && latest[k] != NoId ==> grant(k) {
        forall t | LastConsumed(trace, t) != NoId ensures LastAcked(trace, t) == LastConsumed(trace, t) {
          RoundAcksEverything(cfg, before, run.event, t);
        }
      }
    }
  }
}
