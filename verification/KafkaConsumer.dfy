/** The consumer itself: the two maps updated in place.  Each method is proved to do what the
    state machine does, so what holds of every run holds of every use of this class.  The
    ghost trace records the calls into librdkafka and the user's callback, the ghost run the
    history of events; choices of the environment are arguments. */
module KafkaConsumer {
  import opened KafkaConsumerSpec
  import opened MapWalk
  import opened KafkaOwnership
  import opened KafkaCommitOrder
  import opened KafkaStop
  import opened KafkaHistory
  import opened KafkaTurns
  import WaitingKey
  import PauseGate

  // ---- The class ----

  class Consumer {
    const pull: bool
    const isAutoCommitOffset: bool
    const isUserManualCommitOffset: bool
    const manualCommitTime: int
    const topicPartitionSet: PauseGate.TopicPartitionSet
    var startFlag: bool
    var lastCommitMs: int
    var waitCommitMsgs: map<string, Message>
    var waitDestroyMsgs: map<string, seq<Message>>

    ghost var phase: Phase
    ghost var polls: nat
    ghost var trace: seq<Act>
    ghost var run: Run

    ghost function Cfg(): Config {
      QbusConfig(pull, isAutoCommitOffset, isUserManualCommitOffset, manualCommitTime)
    }

    ghost function View(): State
      reads this
    {
      State(phase, polls, waitCommitMsgs, waitDestroyMsgs, lastCommitMs, trace)
    }

    ghost predicate Valid()
      reads this
    {
      Legal(Cfg(), run) && View() == Final(Cfg(), run)
    }

    /** The configuration may ask for auto commit and for user-manual commit; the latter wins. */
    constructor (pullBuild: bool, autoCommit: bool, userManualCommit: bool, commitTime: int)
      ensures Valid() && run == Start && startFlag && pull == pullBuild
      ensures fresh(topicPartitionSet) && topicPartitionSet.data == map[]
      ensures isUserManualCommitOffset == userManualCommit && manualCommitTime == commitTime
      ensures isAutoCommitOffset == (autoCommit && !userManualCommit)
    {
      pull := pullBuild;
      isUserManualCommitOffset := userManualCommit;
      isAutoCommitOffset := autoCommit && !userManualCommit;
      manualCommitTime := commitTime;
      startFlag := true;
      lastCommitMs := 0;
      waitCommitMsgs, waitDestroyMsgs := map[], map[];
      phase, polls, trace, run := Polling, 0, [], Start;
      topicPartitionSet := new PauseGate.TopicPartitionSet();
    }

    method GetWaitOffsetKey(msg: Message) returns (key: string)
      ensures key == KeyOf(Cfg(), msg)
    {
      key := msg.topic + WaitingKey.Decimal(msg.partition);
    }

    /** `rd_kafka_message_destroy` */
    ghost method DestroyMessage(msg: Message)
      modifies this`trace
      ensures trace == old(trace) + [Destroy(msg)]
    {
      trace := trace + [Destroy(msg)];
    }

    method AddWaitCommitOffset(msg: Message)
      modifies this
      ensures View() == AddWaitCommit(Cfg(), old(View()), msg)
      ensures run == old(run) && startFlag == old(startFlag)
    {
      var key := GetWaitOffsetKey(msg);
      if key in waitCommitMsgs {
        DestroyMessage(waitCommitMsgs[key]);
      } else {
        assert trace + [] == trace;
      }
      waitCommitMsgs := waitCommitMsgs[key := msg];
      trace := trace + [Request(msg)];
    }

    method AddWaitDestroyMsgs(msg: Message)
      modifies this
      ensures View() == AddWaitDestroy(Cfg(), old(View()), msg)
      ensures run == old(run) && startFlag == old(startFlag)
    {
      var key := GetWaitOffsetKey(msg);
      if key in waitDestroyMsgs {
        waitDestroyMsgs := waitDestroyMsgs[key := waitDestroyMsgs[key] + [msg]];
      } else {
        assert [] + [msg] == [msg];
        waitDestroyMsgs := waitDestroyMsgs[key := [msg]];
      }
    }

    /** Finds the message, destroys everything before it, erases that and the message. */
    method RemoveWaitDestroyMsgs(msg: Message)
      modifies this
      ensures View() == RemoveWaitDestroy(Cfg(), old(View()), msg)
      ensures run == old(run) && startFlag == old(startFlag)
    {
      var key := GetWaitOffsetKey(msg);
      if key in waitDestroyMsgs {
        var msgs := waitDestroyMsgs[key];
        var f := 0;
        while f < |msgs| && msgs[f] != msg
          invariant f <= |msgs| && msg !in msgs[..f]
        {
          f := f + 1;
        }
        if f < |msgs| {
          IndexOfIs(msgs, msg, f);
          var k := 0;
          assert trace == old(trace) + DestroyAll(msgs[..0]);
          while k < f
            invariant k <= f
            invariant View() == old(View()).(trace := old(trace) + DestroyAll(msgs[..k]))
            invariant run == old(run) && startFlag == old(startFlag)
          {
            DestroyMessage(msgs[k]);
            assert DestroyAll(msgs[..k + 1]) == DestroyAll(msgs[..k]) + [Destroy(msgs[k])];
            k := k + 1;
          }
          waitDestroyMsgs := waitDestroyMsgs[key := msgs[f + 1..]];
        } else {
          assert msgs[..f] == msgs;
        }
      }
    }

    /** `commitOffset`; the pointer may be null.  On a legal call it is a step of the run; what
        an illegal one does to the maps is the same, with what `CommitOffsetNeedsAHeldMessage`
        says about it. */
    method CommitOffset(rd: Option<Message>)
      modifies this
      ensures startFlag == old(startFlag)
      ensures View() ==
        if isUserManualCommitOffset && rd.Some? then UserCommit(Cfg(), old(View()), rd.value) else old(View())
      ensures old(Valid()) && (rd.Some? ==> CommitIsLegal(old(run), rd.value)) ==> Valid()
      ensures run ==
        if rd.Some? && CommitIsLegal(old(run), rd.value) then Then(old(run), Event.CommitOffset(rd.value)) else old(run)
    {
      if isUserManualCommitOffset && rd.Some? {
        AddWaitCommitOffset(rd.value);
        RemoveWaitDestroyMsgs(rd.value);
      }
      if rd.Some? && CommitIsLegal(run, rd.value) {
        run := Then(run, Event.CommitOffset(rd.value));
      }
    }

    /** A call from the callback and, in user-manual mode, on a message that is still held */
    ghost predicate CommitIsLegal(run: Run, m: Message) {
      Legal(Cfg(), Then(run, Event.CommitOffset(m)))
    }

    /** Commits and destroys what waits in the slots, if forced or if it is time.  The order
        of the map's keys is an argument. */
    method ManualCommitWaitOffset(force: bool, now: int, order: seq<string>)
      requires Enumerates(order, waitCommitMsgs.Keys)
      modifies this
      ensures View() ==
        if Fires(Cfg(), old(View()), force, now) then FlushSlots(old(View()), order).(lastMs := now) else old(View())
      ensures run == old(run) && startFlag == old(startFlag)
    {
      if force || now - lastCommitMs >= manualCommitTime {
        for i := 0 to |order|
          invariant View() == old(View()).(trace := FlushSlots(old(View()), order[..i]).trace)
          invariant FlushSlots(old(View()), order[..i]).slots == old(waitCommitMsgs) - set k | k in order[..i]
          invariant run == old(run) && startFlag == old(startFlag)
        {
          NotYetVisited(order, i);
          var msg := waitCommitMsgs[order[i]];
          trace := trace + [Commit(msg), Destroy(msg)];
        }
        assert order[..|order|] == order;
        FlushSlotsFrame(old(View()), order);
        waitCommitMsgs := map[];
        lastCommitMs := now;
      }
    }

    /** The guard around every such call */
    method FlushUnlessAuto(force: bool, now: int, order: seq<string>)
      requires Enumerates(order, waitCommitMsgs.Keys)
      modifies this
      ensures View() == Flush(Cfg(), old(View()), force, now, order)
      ensures run == old(run) && startFlag == old(startFlag)
    {
      if !isAutoCommitOffset {
        ManualCommitWaitOffset(force, now, order);
      }
    }

    /** Destroys every vector's messages; the map keeps the vectors. */
    method ClearWaitDestroyMsgs(order: seq<string>)
      requires Enumerates(order, waitDestroyMsgs.Keys)
      modifies this
      ensures View() == ClearWaitDestroy(old(View()), order)
      ensures run == old(run) && startFlag == old(startFlag)
    {
      for i := 0 to |order|
        invariant View() == old(View()).(trace := ReleaseVecs(old(View()), order[..i]).trace)
        invariant ReleaseVecs(old(View()), order[..i]).vecs == old(waitDestroyMsgs) - set k | k in order[..i]
        invariant run == old(run) && startFlag == old(startFlag)
      {
        NotYetVisited(order, i);
        DestroyVector(waitDestroyMsgs[order[i]]);
      }
      assert order[..|order|] == order;
    }

    // ---- The polling thread ----

    /** The revoke branch of the rebalance callback */
    method RevokePartitions(now: int, order: seq<string>)
      requires Valid() && Enabled(Cfg(), View(), Revoked(now, order))
      modifies this
      ensures Valid() && run == Then(old(run), Revoked(now, order)) && startFlag == old(startFlag)
      ensures phase == old(phase)
    {
      FlushPhase(View(), order);
      FlushUnlessAuto(true, now, order);
      run := Then(run, Revoked(now, order));
    }

    /** `receivedConsumeMsg`: the user's callback, and the `commitOffset` calls it makes */
    method ReceivedConsumeMsg(msg: Message, commits: seq<Message>)
      requires Valid() && Enabled(Cfg(), View(), Delivered) && phase.m == msg
      requires Legal(Cfg(), UserCommits(Then(run, Delivered), commits))
      modifies this
      ensures Valid() && run == UserCommits(Then(old(run), Delivered), commits) && startFlag == old(startFlag)
      ensures phase == Callback(msg)
    {
      trace := trace + [Deliver(msg)];
      phase := Callback(msg);
      run := Then(run, Delivered);
      ghost var start := run;
      assert Valid();
      for i := 0 to |commits|
        invariant Valid() && run == UserCommits(start, commits[..i]) && startFlag == old(startFlag)
        invariant phase == Callback(msg)
      {
        assert commits[..i + 1][..i] == commits[..i];
        CommitsLegal(Cfg(), start, commits, i + 1);
        assert UserCommits(start, commits[..i + 1]) == Then(run, Event.CommitOffset(commits[i]));
        CommitOffset(Some(commits[i]));
      }
      assert commits[..|commits|] == commits;
    }

    /** A polled message that passed `checkMsg`: kept, delivered, or destroyed after delivery */
    method HandleAccepted(msg: Message, commits: seq<Message>)
      requires Valid() && phase == Hand(msg) && msg.ok
      requires
        var a := Then(if Cfg().autoCommit then run else Then(run, Keep), Delivered);
        Legal(Cfg(), UserCommits(a, commits)) && Legal(Cfg(), a)
      modifies this
      ensures Valid() && phase == Flushing && startFlag == old(startFlag)
      ensures
        var a := Then(if Cfg().autoCommit then old(run) else Then(old(run), Keep), Delivered);
        run == Then(UserCommits(a, commits), Return)
    {
      if !isAutoCommitOffset {
        if !isUserManualCommitOffset {
          AddWaitCommitOffset(msg);
        } else {
          AddWaitDestroyMsgs(msg);
        }
        phase := Kept(msg);
        run := Then(run, Keep);
        assert Valid();
      }
      ReceivedConsumeMsg(msg, commits);
      if isAutoCommitOffset {
        DestroyMessage(msg);
      } else {
        assert trace + [] == trace;
      }
      phase := Flushing;
      run := Then(run, Return);
    }

    /** One poll and what follows it, up to the timed flush */
    method HandlePolled(turn: Turn)
      requires Valid() && phase.Polling? && Legal(Cfg(), AfterPoll(Cfg(), run, turn))
      requires turn.polled.Some? && turn.polled.value.ok ==>
        var a := Accepted(Cfg(), run, turn.polled.value);
        Legal(Cfg(), UserCommits(a, turn.commits)) && Legal(Cfg(), a)
      requires turn.polled.Some? ==> Legal(Cfg(), Then(run, Polled(turn.polled.value)))
      modifies this
      ensures Valid() && run == AfterPoll(Cfg(), old(run), turn) && startFlag == old(startFlag)
      ensures phase == Flushing
    {
      match turn.polled
      case None =>
        phase := Flushing;
        run := Then(run, PolledNothing);
      case Some(msg) =>
        phase, polls, trace := Hand(msg), polls + 1, trace + [Poll(msg)];
        run := Then(run, Polled(msg));
        assert Valid();
        if msg.ok {
          HandleAccepted(msg, turn.commits);
        } else {
          DestroyMessage(msg);
          phase := Flushing;
          run := Then(run, Drop);
        }
    }

    /** The timed flush at the end of an iteration, and the one after the loop */
    method FlushIfTime(now: int, order: seq<string>)
      requires Valid() && Enabled(Cfg(), View(), TimedFlush(now, order))
      modifies this
      ensures Valid() && run == Then(old(run), TimedFlush(now, order)) && startFlag == old(startFlag)
      ensures phase ==
        if old(phase).Flushing? then Polling else if old(phase).Exiting? then Joined else old(phase)
    {
      FlushPhase(View(), order);
      FlushUnlessAuto(false, now, order);
      phase := if phase.Flushing? then Polling else if phase.Exiting? then Joined else phase;
      run := Then(run, TimedFlush(now, order));
    }

    /** The revocations inside a poll */
    method RunRevokes(revokes: seq<(int, seq<string>)>)
      requires Valid() && phase.Polling? && Legal(Cfg(), Revokes(run, revokes))
      modifies this
      ensures Valid() && phase.Polling? && run == Revokes(old(run), revokes) && startFlag == old(startFlag)
    {
      for i := 0 to |revokes|
        invariant Valid() && run == Revokes(old(run), revokes[..i]) && startFlag == old(startFlag)
        invariant phase.Polling?
      {
        assert revokes[..i + 1][..i] == revokes[..i];
        RevokesLegal(Cfg(), old(run), revokes, i + 1);
        assert Revokes(old(run), revokes[..i + 1]) == Then(run, Revoked(revokes[i].0, revokes[i].1));
        RevokePartitions(revokes[i].0, revokes[i].1);
      }
      assert revokes[..|revokes|] == revokes;
    }

    /** One iteration of the loop in `ConsumePollThread` */
    method PollTurn(turn: Turn)
      requires Valid() && phase.Polling? && Legal(Cfg(), AfterTurn(Cfg(), run, turn))
      modifies this
      ensures Valid() && phase.Polling? && run == AfterTurn(Cfg(), old(run), turn) && startFlag == old(startFlag)
      ensures Events(run) == Events(old(run)) + TurnEvents(Cfg(), turn)
    {
      AfterTurnLegal(Cfg(), run, turn);
      EventsOfTurn(Cfg(), run, turn);
      RunRevokes(turn.revokes);
      HandlePolled(turn);
      FlushIfTime(turn.now, turn.order);
    }

    // ---- The build without a polling thread ----

    /** What a poll of `consume` returned is kept or destroyed. */
    method TakePolled(polled: Option<Message>) returns (rt: bool, rd: Option<Message>)
      requires Valid() && pull && phase.Polling? && Legal(Cfg(), Taken(run, polled))
      requires polled.Some? ==> Legal(Cfg(), Then(run, Polled(polled.value)))
      modifies this
      ensures Valid() && phase.Flushing? && run == Taken(old(run), polled) && startFlag == old(startFlag)
      ensures rt == (polled.Some? && polled.value.ok) && rd == if rt then polled else None
    {
      rt, rd := false, None;
      match polled {
        case None =>
          run := Then(run, PolledNothing);
        case Some(msg) =>
          polls, trace := polls + 1, trace + [Poll(msg)];
          if msg.ok {
            rd := polled;
            if !isAutoCommitOffset {
              if !isUserManualCommitOffset {
                AddWaitCommitOffset(msg);
              } else {
                AddWaitDestroyMsgs(msg);
              }
            } else {
              DestroyMessage(msg);
            }
            rt := true;
          } else {
            DestroyMessage(msg);
          }
          run := Then(Then(run, Polled(msg)), if msg.ok then Keep else Drop);
      }
      phase := Flushing;
    }

    /** `consume`: polls if started, flushes if it is time, and returns exactly an accepted
        message. */
    method Consume(call: Call) returns (rt: bool, rd: Option<Message>)
      requires Valid() && pull
      requires startFlag ==> phase.Polling? && Legal(Cfg(), AfterCall(run, call))
      requires !startFlag ==> phase.Closing? && Enumerates(call.order, waitCommitMsgs.Keys)
      modifies this
      ensures Valid() && startFlag == old(startFlag)
      ensures old(startFlag) ==> Events(run) == Events(old(run)) + CallEvents(call)
      ensures old(startFlag) ==> phase.Polling? && run == AfterCall(old(run), call)
      ensures !old(startFlag) ==> run == Then(old(run), TimedFlush(call.now, call.order))
      ensures rt == (old(startFlag) && call.polled.Some? && call.polled.value.ok) && rd == if rt then call.polled else None
    {
      rt, rd := false, None;
      if startFlag {
        AfterCallLegal(Cfg(), run, call);
        EventsOfCall(run, call);
        RunRevokes(call.revokes);
        rt, rd := TakePolled(call.polled);
      }
      FlushIfTime(call.now, call.order);
    }

    method PollTurns(turns: seq<Turn>)
      requires Valid() && phase.Polling? && Legal(Cfg(), AfterTurns(Cfg(), run, turns))
      modifies this
      ensures Valid() && phase.Polling? && run == AfterTurns(Cfg(), old(run), turns) && startFlag == old(startFlag)
    {
      for i := 0 to |turns|
        invariant Valid() && phase.Polling? && run == AfterTurns(Cfg(), old(run), turns[..i]) && startFlag == old(startFlag)
      {
        assert turns[..i + 1][..i] == turns[..i];
        TurnsLegal(Cfg(), old(run), turns, i + 1);
        assert AfterTurns(Cfg(), old(run), turns[..i + 1]) == AfterTurn(Cfg(), run, turns[i]);
        PollTurn(turns[i]);
      }
      assert turns[..|turns|] == turns;
    }

    /** The polling thread from some turn on: it takes the given turns, then sees the start flag
        cleared. */
    method ConsumePollThread(turns: seq<Turn>, now: int, order: seq<string>)
      requires Valid() && phase.Polling?
      requires Legal(Cfg(), Then(Then(AfterTurns(Cfg(), run, turns), Exit), TimedFlush(now, order)))
      modifies this
      ensures Valid() && phase.Joined? && startFlag == old(startFlag)
      ensures run == Then(Then(AfterTurns(Cfg(), old(run), turns), Exit), TimedFlush(now, order))
      ensures Events(run) == Events(old(run)) + AllTurnEvents(Cfg(), turns) + [Exit, TimedFlush(now, order)]
    {
      EventsOfTurns(Cfg(), run, turns);
      assert Legal(Cfg(), Then(AfterTurns(Cfg(), run, turns), Exit));
      PollTurns(turns);
      phase := Exiting;
      run := Then(run, Exit);
      FlushIfTime(now, order);
    }

    // ---- Stop ----

    method FlushForced(now: int, order: seq<string>)
      requires Valid() && (if pull then phase.Polling? else phase.Joined?) && Enumerates(order, waitCommitMsgs.Keys)
      modifies this
      ensures Valid() && phase.Drained? && run == Then(old(run), ForcedFlush(now, order))
      ensures startFlag == old(startFlag) && waitDestroyMsgs == old(waitDestroyMsgs)
    {
      FlushKeepsVecs(Cfg(), View(), now, order);
      FlushUnlessAuto(true, now, order);
      phase := Drained;
      run := Then(run, ForcedFlush(now, order));
    }

    method ReleaseUncommitted(order: seq<string>)
      requires Valid() && phase.Drained? && Enumerates(order, waitDestroyMsgs.Keys)
      modifies this
      ensures Valid() && phase.Closing? && run == Then(old(run), Clear(order)) && startFlag == old(startFlag)
    {
      if isUserManualCommitOffset {
        ClearWaitDestroyMsgs(order);
      }
      phase := Closing;
      run := Then(run, Clear(order));
    }

    /** The run of `stop`: in the callback build the turn the polling thread was in when the
        flag went down and the end of its loop; then the forced flush and the clearing */
    ghost function StopRun(run: Run, last: seq<Turn>, end: (int, seq<string>), forced: (int, seq<string>), clear: seq<string>): Run {
      Then(Then(Ended(run, last, end), ForcedFlush(forced.0, forced.1)), Clear(clear))
    }

    ghost function Ended(run: Run, last: seq<Turn>, end: (int, seq<string>)): Run {
      if pull then run else Then(Then(AfterTurns(Cfg(), run, last), Exit), TimedFlush(end.0, end.1))
    }

    lemma EventsOfStop(run: Run, last: seq<Turn>, end: (int, seq<string>), forced: (int, seq<string>), clear: seq<string>)
      ensures Events(StopRun(run, last, end, forced, clear)) == Events(run)
                + (if pull then [] else AllTurnEvents(Cfg(), last) + [Exit, TimedFlush(end.0, end.1)])
                + [ForcedFlush(forced.0, forced.1), Clear(clear)]
    {
      if pull {
        assert Events(run) + [] == Events(run);
      } else {
        EventsOfTurns(Cfg(), run, last);
        var turned := AfterTurns(Cfg(), run, last);
        assert Events(Then(turned, Exit)) == Events(turned) + [Exit];
      }
      var ended := Ended(run, last, end);
      assert Events(Then(ended, ForcedFlush(forced.0, forced.1))) == Events(ended) + [ForcedFlush(forced.0, forced.1)];
    }

    /** Joining the polling thread, where there is one */
    method EndPolling(last: seq<Turn>, end: (int, seq<string>))
      requires Valid() && phase.Polling? && Legal(Cfg(), Ended(run, last, end))
      modifies this
      ensures Valid() && run == Ended(old(run), last, end) && startFlag == old(startFlag)
      ensures if pull then phase.Polling? else phase.Joined?
    {
      if !pull {
        ConsumePollThread(last, end.0, end.1);
      }
    }

    /** `stop`: the flag goes down, the partition set is cleared, the polling thread ends after
        at most one more turn and is joined, and what waits is committed or destroyed.  Every
        message ever polled has then been destroyed exactly once.  A consumer that is not
        started is left alone. */
    method Stop(last: seq<Turn>, end: (int, seq<string>), forced: (int, seq<string>), clear: seq<string>)
      requires Valid() && |last| <= 1
      requires startFlag ==> phase.Polling? && Legal(Cfg(), StopRun(run, last, end, forced, clear))
      modifies this, topicPartitionSet
      ensures Valid() && !startFlag
      ensures !old(startFlag) ==>
        View() == old(View()) && run == old(run) && topicPartitionSet.data == old(topicPartitionSet.data)
      ensures old(startFlag) ==>
        && phase.Closing? && run == StopRun(old(run), last, end, forced, clear) && topicPartitionSet.data == map[]
        && Events(run) == Events(old(run))
             + (if pull then [] else AllTurnEvents(Cfg(), last) + [Exit, TimedFlush(end.0, end.1)])
             + [ForcedFlush(forced.0, forced.1), Clear(clear)]
        && forall m :: Poll(m) in trace ==> multiset(trace)[Destroy(m)] == 1
    {
      if !startFlag {
        return;
      }
      EventsOfStop(run, last, end, forced, clear);
      ghost var ended := Ended(run, last, end);
      assert Legal(Cfg(), Then(ended, ForcedFlush(forced.0, forced.1))) && Legal(Cfg(), ended);
      startFlag := false;
      topicPartitionSet.Clear();
      EndPolling(last, end);
      FlushForced(forced.0, forced.1);
      ReleaseUncommitted(clear);
      AllReleasedOnce(Cfg(), run);
    }

    method DestroyVector(msgs: seq<Message>)
      modifies this`trace
      ensures trace == old(trace) + DestroyAll(msgs)
    {
      var k := 0;
      while k < |msgs|
        invariant k <= |msgs| && trace == old(trace) + DestroyAll(msgs[..k])
      {
        DestroyMessage(msgs[k]);
        assert DestroyAll(msgs[..k + 1]) == DestroyAll(msgs[..k]) + [Destroy(msgs[k])];
        k := k + 1;
      }
      assert msgs[..k] == msgs;
    }
  }

  lemma AllReleasedOnce(cfg: Config, run: Run)
    requires Legal(cfg, run) && Final(cfg, run).phase.Closing?
    ensures
      var t := Final(cfg, run).trace;
      forall m :: Poll(m) in t ==> multiset(t)[Destroy(m)] == 1
  {
    forall m | Poll(m) in Final(cfg, run).trace ensures multiset(Final(cfg, run).trace)[Destroy(m)] == 1 {
      StopReleasesExactlyOnce(cfg, run, m);
    }
  }

  lemma {:induction false} FlushPhase(s: State, order: seq<string>)
    ensures FlushSlots(s, order).phase == s.phase
  {
    if order != [] {
      FlushPhase(s, order[..|order| - 1]);
    }
  }

  lemma FlushKeepsVecs(cfg: Config, s: State, now: int, order: seq<string>)
    ensures Flush(cfg, s, true, now, order).vecs == s.vecs
  {
    var acts := FlushActs(s, order);
  }

  lemma IndexOfIs(msgs: seq<Message>, m: Message, f: nat)
    requires f < |msgs| && msgs[f] == m && m !in msgs[..f]
    ensures IndexOf(msgs, m) == f
  {
    var i := IndexOf(msgs, m);
    assert forall j :: 0 <= j < f ==> msgs[..f][j] == msgs[j];
    assert forall j :: 0 <= j < i ==> msgs[..i][j] == msgs[j];
  }
}
