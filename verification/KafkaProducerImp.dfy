/** The Kafka producer itself, beside a librdkafka with a queue of its own.  Each method is
    proved to do what the state machine of `KafkaProducer` does, so what holds of every run
    holds of every use of this class. */
module KafkaProducerImp {
  import opened KafkaProducer

  lemma {:induction false} AfterPollLegal(sync: bool, run: Run, batch: seq<Rep>, n: nat)
    requires Legal(sync, AfterPoll(run, batch)) && n <= |batch|
    ensures Legal(sync, AfterPoll(run, batch[..n]))
  {
    if n < |batch| {
      var p := batch[..|batch| - 1];
      AfterPollLegal(sync, run, p, n);
      assert p[..n] == batch[..n];
    } else {
      assert batch[..n] == batch;
    }
  }

  lemma AfterPollStep(sync: bool, run: Run, batch: seq<Rep>, n: nat)
    requires Legal(sync, AfterPoll(run, batch)) && n < |batch|
    ensures AfterPoll(run, batch[..n + 1]) == Then(AfterPoll(run, batch[..n]), Reported(batch[n].i, batch[n].err, batch[n].accepted))
    ensures Legal(sync, AfterPoll(run, batch[..n + 1]))
  {
    AfterPollLegal(sync, run, batch, n + 1);
    assert batch[..n + 1][..n] == batch[..n];
  }

  ghost function AsEvents(batch: seq<Rep>): seq<Event> {
    seq(|batch|, i requires 0 <= i < |batch| => Reported(batch[i].i, batch[i].err, batch[i].accepted))
  }

  lemma {:induction false} PollEvents(run: Run, batch: seq<Rep>)
    ensures AfterPoll(run, batch) == Extend(run, AsEvents(batch)) && Reports(AsEvents(batch)) == |batch|
  {
    if batch != [] {
      var n := |batch| - 1;
      PollEvents(run, batch[..n]);
      assert AsEvents(batch)[..n] == AsEvents(batch[..n]);
    }
  }

  ghost function Events(run: Run): seq<Event> {
    if run.Then? then Events(run.before) + [run.event] else []
  }

  lemma {:induction false} EventsOfPoll(run: Run, batch: seq<Rep>)
    ensures Events(AfterPoll(run, batch)) == Events(run) + AsEvents(batch)
  {
    if batch != [] {
      var n := |batch| - 1;
      EventsOfPoll(run, batch[..n]);
      assert AsEvents(batch) == AsEvents(batch[..n]) + [Reported(batch[n].i, batch[n].err, batch[n].accepted)];
    }
  }

  /** The reports that a send brings: an asynchronous one polls once, a synchronous one until
      some poll brings any, at most 30 times; a refused one does not poll. */
  function Brings(sync: bool, accepted: bool, polls: seq<seq<Rep>>): seq<Rep> {
    if !accepted then []
    else if !sync then Batch(polls, 0)
    else
      var n := FirstReport(polls, 0);
      if n < 30 then Batch(polls, n) else []
  }

  /** librdkafka as the producer sees it: it takes a record or refuses it, and it hands out
      reports on what it has, in any order. */
  class Rdkafka {
    var queue: seq<Msg>
    var calls: nat
    ghost var log: seq<Act>

    constructor ()
      ensures queue == [] && calls == 0 && log == []
    {
      queue, calls, log := [], 0, [];
    }

    /** `rd_kafka_produce` */
    method Produce(ghost origin: Caller, record: Record, accepted: bool) returns (ok: bool)
      modifies this
      ensures ok == accepted && calls == old(calls) + 1 && log == old(log) + [Call(origin, record, accepted)]
      ensures queue == if accepted then old(queue) + [Msg(old(calls), record)] else old(queue)
    {
      if accepted {
        queue := queue + [Msg(calls, record)];
      }
      log := log + [Call(origin, record, accepted)];
      calls := calls + 1;
      ok := accepted;
    }

    /** Notes in the log that the producer's flag is down. */
    ghost method NoteCleared()
      modifies this`log
      ensures log == old(log) + [Cleared]
    {
      log := log + [Cleared];
    }

    /** The message of the next report leaves the queue. */
    method Take(i: nat, err: ErrCode) returns (m: Msg)
      requires i < |queue|
      modifies this
      ensures m == old(queue)[i] && queue == old(queue)[..i] + old(queue)[i + 1..]
      ensures calls == old(calls) && log == old(log) + [Report(m, err)]
    {
      m := queue[i];
      queue := queue[..i] + queue[i + 1..];
      log := log + [Report(m, err)];
    }
  }

  class QbusProducerImp {
    const isSyncSend: bool
    var isInit: bool
    var handle: Rdkafka?
    var syncSendErr: int

    ghost const lib: Rdkafka
    ghost var run: Run

    ghost function View(): State
      reads this, lib
    {
      State(isInit, handle != null, lib.queue, lib.calls, syncSendErr, lib.log)
    }

    ghost predicate Valid()
      reads this, lib
    {
      && (handle != null ==> handle == lib)
      && Legal(isSyncSend, run) && View() == Final(isSyncSend, run)
    }

    constructor (sync: bool)
      ensures Valid() && isSyncSend == sync && isInit && run == Start && fresh(lib)
    {
      var rdkafka := new Rdkafka();
      isSyncSend := sync;
      isInit, handle, syncSendErr := true, rdkafka, NO_ERROR;
      lib, run := rdkafka, Start;
    }

    /** `msgDeliveredCallback`: a failure is resent, with the reported payload and key, while
        the producer is initialized. */
    method MsgDeliveredCallback(m: Msg, err: ErrCode, accepted: bool)
      requires handle != null ==> handle == lib
      modifies this`syncSendErr, lib
      ensures View() == OnReport(isSyncSend, old(View()), m, err, accepted)
    {
      if isSyncSend {
        syncSendErr := err;
      } else if err != NO_ERROR && isInit {
        if handle != null {
          var ok := handle.Produce(Callback, Record(m.record.data, m.record.key), accepted);
        }
      }
    }

    /** `rd_kafka_poll` or `rd_kafka_flush`: librdkafka runs the callback for each report. */
    method Poll(batch: seq<Rep>)
      requires Valid() && handle != null && Legal(isSyncSend, AfterPoll(run, batch))
      modifies this`syncSendErr, this`run, lib
      ensures Valid() && run == AfterPoll(old(run), batch)
    {
      for n := 0 to |batch|
        invariant Valid() && run == AfterPoll(old(run), batch[..n])
      {
        AfterPollStep(isSyncSend, old(run), batch, n);
        var m := handle.Take(batch[n].i, batch[n].err);
        MsgDeliveredCallback(m, batch[n].err, batch[n].accepted);
        run := Then(run, Reported(batch[n].i, batch[n].err, batch[n].accepted));
      }
      assert batch[..|batch|] == batch;
    }

    /** The polling of a synchronous send, until a report came or the polls are used up */
    method AwaitReport(polls: seq<seq<Rep>>) returns (polled: nat)
      requires Valid() && isSyncSend && handle != null && syncSendErr == ERROR_INIT_VALUE
      requires Legal(true, Awaited(run, polls))
      modifies this`syncSendErr, this`run, lib
      ensures Valid() && run == Awaited(old(run), polls)
      ensures polled <= 30
      ensures polled == if FirstReport(polls, 0) < SYNC_SEND_POLLS then FirstReport(polls, 0) + 1 else SYNC_SEND_POLLS
    {
      polled := 0;
      ghost var n := FirstReport(polls, 0);
      while syncSendErr == ERROR_INIT_VALUE && polled < SYNC_SEND_POLLS
        invariant polled <= SYNC_SEND_POLLS && Valid()
        invariant syncSendErr == ERROR_INIT_VALUE ==> polled <= n && run == old(run)
        invariant syncSendErr != ERROR_INIT_VALUE ==> polled == n + 1 <= SYNC_SEND_POLLS && run == Awaited(old(run), polls)
        decreases SYNC_SEND_POLLS - polled
      {
        ghost var batch := Batch(polls, polled);
        PollShrinks(run, batch);
        Poll(Batch(polls, polled));
        polled := polled + 1;
      }
    }

    /** `internalProduce`: in synchronous mode it awaits a report, otherwise it polls once. */
    method InternalProduce(record: Record, accepted: bool, polls: seq<seq<Rep>>) returns (rt: bool)
      requires Valid() && isInit && Legal(isSyncSend, AfterProduce(run, record, accepted, polls))
      modifies this`syncSendErr, this`run, lib
      ensures Valid() && run == AfterProduce(old(run), record, accepted, polls)
      ensures rt <==> accepted && (isSyncSend ==> Succeeds(run))
      ensures Events(run) == Events(old(run)) + [Event.Produce(record, accepted)] + AsEvents(Brings(isSyncSend, accepted, polls))
    {
      rt := false;
      EventsOfSend(run, record, accepted, polls);
      RunAnswered(isSyncSend, run);
      syncSendErr := ERROR_INIT_VALUE;
      var ok := false;
      if handle != null {
        ok := handle.Produce(User, record, accepted);
      }
      run := Then(run, Event.Produce(record, accepted));
      if ok {
        if isSyncSend {
          var polled := AwaitReport(polls);
          rt := syncSendErr == NO_ERROR;
        } else {
          Poll(Batch(polls, 0));
          rt := true;
        }
      }
    }

    /** The run of a send on an initialized producer */
    ghost function AfterProduce(run: Run, record: Record, accepted: bool, polls: seq<seq<Rep>>): Run {
      if !accepted then Then(run, Event.Produce(record, false))
      else if isSyncSend then SyncRun(run, record, polls)
      else AfterPoll(Then(run, Event.Produce(record, true)), Batch(polls, 0))
    }

    lemma EventsOfSend(run: Run, record: Record, accepted: bool, polls: seq<seq<Rep>>)
      ensures Events(AfterProduce(run, record, accepted, polls)) ==
              Events(run) + [Event.Produce(record, accepted)] + AsEvents(Brings(isSyncSend, accepted, polls))
    {
      var called := Then(run, Event.Produce(record, accepted));
      EventsOfPoll(called, Brings(isSyncSend, accepted, polls));
    }

    /** `produce` */
    method Produce(record: Record, accepted: bool, polls: seq<seq<Rep>>) returns (rt: bool)
      requires Valid() && (isInit ==> Legal(isSyncSend, AfterProduce(run, record, accepted, polls)))
      modifies this`syncSendErr, this`run, lib
      ensures Valid() && Conserved(View())
      ensures !isInit ==> !rt && View() == old(View()) && run == old(run)
      ensures isInit ==>
        && run == AfterProduce(old(run), record, accepted, polls)
        && Events(run) == Events(old(run)) + [Event.Produce(record, accepted)] + AsEvents(Brings(isSyncSend, accepted, polls))
        && (rt <==> accepted && (isSyncSend ==> Succeeds(run)))
    {
      rt := false;
      if isInit {
        rt := InternalProduce(record, accepted, polls);
      }
      RunConserves(isSyncSend, run);
    }

    /** `uninit`: from here on nothing is resent; if there is a handle, the flush brings some
        reports, each of which takes a message out of the queue for good, and the handle goes. */
    method Uninit(flushed: seq<Rep>)
      requires Valid() && Legal(isSyncSend, AfterPoll(Then(run, UninitBegins), flushed))
      modifies this, lib
      ensures Valid() && Conserved(View()) && !isInit && handle == null
      ensures run == Then(AfterPoll(Then(old(run), UninitBegins), flushed), UninitEnds)
      ensures Events(run) == Events(old(run)) + [UninitBegins] + AsEvents(flushed) + [UninitEnds]
      ensures |lib.queue| == |old(lib.queue)| - |flushed| && lib.calls == old(lib.calls)
    {
      ghost var begun := Then(run, UninitBegins);
      isInit := false;
      lib.NoteCleared();
      run := begun;
      if handle != null {
        Poll(flushed);
        handle := null;
      } else if flushed != [] {
        AfterPollStep(isSyncSend, begun, flushed, 0);
        assert false;
      }
      EventsOfPoll(begun, flushed);
      PollEvents(begun, flushed);
      DrainTerminates(isSyncSend, begun, AsEvents(flushed));
      run := Then(run, UninitEnds);
      RunConserves(isSyncSend, run);
    }
  }
}
