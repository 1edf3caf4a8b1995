/** The Kafka producer as a state machine: sends, delivery reports, and the shutdown, in any
    order.  librdkafka keeps a queue of its own.  What the producer contributes is which
    produce calls it makes, above all from the delivery callback; the log records those calls
    and the reports.  Whatever librdkafka decides is an argument of an event. */
module KafkaProducer {

  /** `RD_KAFKA_PRODUCE_ERROR_INIT_VALUE`; no real response code has this value. */
  const ERROR_INIT_VALUE := -12345
  const NO_ERROR := 0
  /** `RD_KAFKA_SYNC_SEND_POLL_TIME` */
  const SYNC_SEND_POLLS := 30

  type ErrCode = e: int | e != ERROR_INIT_VALUE witness 0

  datatype Record = Record(data: string, key: string)

  /** A record in librdkafka's queue; the id numbers the produce calls. */
  datatype Msg = Msg(id: nat, record: Record)

  datatype Caller = User | Callback

  /** A produce call and whether librdkafka took the record, a delivery report handed to the
      callback, and the moment `uninit` clears the flag. */
  datatype Act =
    | Call(origin: Caller, record: Record, ok: bool)
    | Report(m: Msg, err: ErrCode)
    | Cleared

  datatype State = State(init: bool, handle: bool, queue: seq<Msg>, calls: nat, syncErr: int, log: seq<Act>)

  const INIT := State(true, true, [], 0, NO_ERROR, [])

  /** `Reported(i, ...)`: librdkafka reports on the i-th message of its queue, and would take
      that message again or not. */
  datatype Event =
    | Produce(record: Record, accepted: bool)
    | Reported(i: nat, err: ErrCode, accepted: bool)
    | UninitBegins
    | UninitEnds

  // ---- librdkafka ----

  function RdProduce(s: State, origin: Caller, record: Record, accepted: bool): State {
    s.(queue := if accepted then s.queue + [Msg(s.calls, record)] else s.queue,
       calls := s.calls + 1,
       log := s.log + [Call(origin, record, accepted)])
  }

  function RdReport(s: State, i: nat, err: ErrCode): State
    requires i < |s.queue|
  {
    s.(queue := s.queue[..i] + s.queue[i + 1..], log := s.log + [Report(s.queue[i], err)])
  }

  // ---- The producer ----

  /** `msgDeliveredCallback` */
  function OnReport(sync: bool, s: State, m: Msg, err: ErrCode, accepted: bool): State {
    if sync then s.(syncErr := err)
    else if err != NO_ERROR && s.init && s.handle then RdProduce(s, Callback, m.record, accepted)
    else s
  }

  predicate Enabled(s: State, e: Event) {
    match e
    case Produce(record, accepted) => true
    case Reported(i, err, accepted) => s.handle && i < |s.queue|
    case UninitBegins => true
    case UninitEnds => !s.init
  }

  function Next(sync: bool, s: State, e: Event): State
    requires Enabled(s, e)
  {
    match e
    case Produce(record, accepted) =>
      if s.init && s.handle then RdProduce(s.(syncErr := ERROR_INIT_VALUE), User, record, accepted) else s
    case Reported(i, err, accepted) => OnReport(sync, RdReport(s, i, err), s.queue[i], err, accepted)
    case UninitBegins => s.(init := false, log := s.log + [Cleared])
    case UninitEnds => s.(handle := false)
  }

  datatype Run = Start | Then(before: Run, event: Event)

  predicate Legal(sync: bool, run: Run)
    decreases run, 0
  {
    match run
    case Start => true
    case Then(before, e) => Legal(sync, before) && Enabled(Final(sync, before), e)
  }

  function Final(sync: bool, run: Run): State
    requires Legal(sync, run)
    decreases run, 1
  {
    match run
    case Start => INIT
    case Then(before, e) => Next(sync, Final(sync, before), e)
  }

  // ---- The log is what the events say ----

  /** `uninit` has not begun. */
  predicate Initialized(run: Run) {
    run.Then? ==> !run.event.UninitBegins? && Initialized(run.before)
  }

  /** The sends that find the producer initialized, and whether librdkafka takes the record */
  function Sends(run: Run): seq<(Record, bool)> {
    match run
    case Start => []
    case Then(before, Produce(record, accepted)) => Sends(before) + if Initialized(before) then [(record, accepted)] else []
    case Then(before, e) => Sends(before)
  }

  /** The reports that librdkafka makes, on messages of its queue */
  function Told(sync: bool, run: Run): seq<(Msg, ErrCode)>
    requires Legal(sync, run)
  {
    match run
    case Start => []
    case Then(before, e) =>
      Told(sync, before) + if e.Reported? then [(Final(sync, before).queue[e.i], e.err)] else []
  }

  function UserCalls(t: seq<Act>): seq<(Record, bool)> {
    if t == [] then []
    else
      var a := t[|t| - 1];
      UserCalls(t[..|t| - 1]) + if a.Call? && a.origin == User then [(a.record, a.ok)] else []
  }

  function ReportsIn(t: seq<Act>): seq<(Msg, ErrCode)> {
    if t == [] then []
    else
      var a := t[|t| - 1];
      ReportsIn(t[..|t| - 1]) + if a.Report? then [(a.m, a.err)] else []
  }

  lemma LogSnoc(t: seq<Act>, a: Act)
    ensures UserCalls(t + [a]) == UserCalls(t) + if a.Call? && a.origin == User then [(a.record, a.ok)] else []
    ensures ReportsIn(t + [a]) == ReportsIn(t) + if a.Report? then [(a.m, a.err)] else []
  {
    assert (t + [a])[..|t|] == t;
  }

  lemma NextLog(sync: bool, s: State, e: Event)
    requires Enabled(s, e) && FlagOk(s)
    ensures
      var n := Next(sync, s, e);
      && UserCalls(n.log) == UserCalls(s.log) + (if e.Produce? && s.init then [(e.record, e.accepted)] else [])
      && ReportsIn(n.log) == ReportsIn(s.log) + (if e.Reported? then [(s.queue[e.i], e.err)] else [])
  {
    match e
    case Produce(record, accepted) => LogSnoc(s.log, Call(User, record, accepted));
    case Reported(i, err, accepted) =>
      var r := Report(s.queue[i], err);
      LogSnoc(s.log, r);
      LogSnoc(s.log + [r], Call(Callback, s.queue[i].record, accepted));
    case UninitBegins => LogSnoc(s.log, Cleared);
    case UninitEnds =>
  }

  lemma {:induction false} InitIffInitialized(sync: bool, run: Run)
    requires Legal(sync, run)
    ensures Final(sync, run).init <==> Initialized(run)
    ensures FlagOk(Final(sync, run))
  {
    RunAnswered(sync, run);
    if run.Then? {
      InitIffInitialized(sync, run.before);
    }
  }

  /** librdkafka is called for the user exactly as the user asked: the payloads and keys of the
      sends that find the producer initialized, in order, and no others. */
  lemma {:induction false} UserCallsAreSends(sync: bool, run: Run)
    requires Legal(sync, run)
    ensures UserCalls(Final(sync, run).log) == Sends(run)
    ensures ReportsIn(Final(sync, run).log) == Told(sync, run)
  {
    if run.Then? {
      UserCallsAreSends(sync, run.before);
      InitIffInitialized(sync, run.before);
      NextLog(sync, Final(sync, run.before), run.event);
    }
  }

  // ---- Conservation ----

  /** The records in the queue */
  function Records(queue: seq<Msg>): multiset<Record> {
    if queue == [] then multiset{} else Records(queue[..|queue| - 1]) + multiset{queue[|queue| - 1].record}
  }

  /** Kinds of log entries: accepted from the user, delivered, and given up */
  datatype Kind = Accepted | Delivered | GivenUp

  predicate IsResend(t: seq<Act>, j: nat) {
    j < |t| && t[j].Call? && t[j].origin == Callback && t[j].ok
  }

  /** A failure is given up unless librdkafka takes some record from the callback right then. */
  predicate Is(t: seq<Act>, kind: Kind, j: nat)
    requires j < |t|
  {
    match kind
    case Accepted => t[j].Call? && t[j].origin == User && t[j].ok
    case Delivered => t[j].Report? && t[j].err == NO_ERROR
    case GivenUp => t[j].Report? && t[j].err != NO_ERROR && !IsResend(t, j + 1)
  }

  function RecordOf(a: Act): Record
    requires !a.Cleared?
  {
    if a.Call? then a.record else a.m.record
  }

  /** The records of the first n entries that are of a kind */
  ghost function Collect(t: seq<Act>, kind: Kind, n: nat): multiset<Record>
    requires n <= |t|
  {
    if n == 0 then multiset{}
    else Collect(t, kind, n - 1) + if Is(t, kind, n - 1) then multiset{RecordOf(t[n - 1])} else multiset{}
  }

  ghost function All(t: seq<Act>, kind: Kind): multiset<Record> {
    Collect(t, kind, |t|)
  }

  ghost predicate Conserved(s: State) {
    All(s.log, Accepted) == Records(s.queue) + All(s.log, Delivered) + All(s.log, GivenUp)
  }

  lemma {:induction false} CollectPrefix(t: seq<Act>, acts: seq<Act>, kind: Kind, n: nat)
    requires n <= |t| && !IsResend(acts, 0)
    ensures Collect(t + acts, kind, n) == Collect(t, kind, n)
  {
    if n > 0 {
      CollectPrefix(t, acts, kind, n - 1);
      assert (t + acts)[n - 1] == t[n - 1];
      assert IsResend(t + acts, n) <==> IsResend(t, n);
    }
  }

  /** One entry that is no resend */
  lemma AllSnoc(t: seq<Act>, a: Act, kind: Kind)
    requires !IsResend([a], 0)
    ensures All(t + [a], kind) == All(t, kind) + if Is([a], kind, 0) then multiset{RecordOf(a)} else multiset{}
  {
    CollectPrefix(t, [a], kind, |t|);
    var u := t + [a];
    assert u[|t|] == a && !IsResend(u, |t| + 1);
  }

  /** A failure and a resend: nothing is delivered or given up, nothing new accepted. */
  lemma AllResent(t: seq<Act>, m: Msg, err: ErrCode, record: Record, kind: Kind)
    requires err != NO_ERROR
    ensures All(t + [Report(m, err), Call(Callback, record, true)], kind) == All(t, kind)
  {
    var acts := [Report(m, err), Call(Callback, record, true)];
    CollectPrefix(t, acts, kind, |t|);
    var u := t + acts;
    assert u[|t|] == acts[0] && u[|t| + 1] == acts[1];
    assert IsResend(u, |t| + 1);
    assert Collect(u, kind, |t| + 1) == Collect(u, kind, |t|);
  }

  lemma {:induction false} RecordsConcat(a: seq<Msg>, b: seq<Msg>)
    ensures Records(a + b) == Records(a) + Records(b)
  {
    if b == [] {
      assert a + b == a;
    } else {
      var n := |b| - 1;
      assert (a + b)[..|a + b| - 1] == a + b[..n];
      RecordsConcat(a, b[..n]);
    }
  }

  lemma RecordsPut(queue: seq<Msg>, m: Msg)
    ensures Records(queue + [m]) == Records(queue) + multiset{m.record}
  {
    assert (queue + [m])[..|queue + [m]| - 1] == queue;
  }

  lemma MoveLast(a: multiset<Record>, one: multiset<Record>, b: multiset<Record>)
    ensures (a + one) + b == (a + b) + one
  {
  }

  lemma RecordsAround(front: seq<Msg>, m: Msg, back: seq<Msg>)
    ensures Records(front + [m] + back) == Records(front + back) + multiset{m.record}
  {
    RecordsPut(front, m);
    RecordsConcat(front, back);
    RecordsConcat(front + [m], back);
    MoveLast(Records(front), multiset{m.record}, Records(back));
  }

  lemma Around(queue: seq<Msg>, i: nat)
    requires i < |queue|
    ensures queue == queue[..i] + [queue[i]] + queue[i + 1..]
  {
  }

  lemma RecordsTake(queue: seq<Msg>, i: nat)
    requires i < |queue|
    ensures Records(queue) == Records(queue[..i] + queue[i + 1..]) + multiset{queue[i].record}
  {
    var front, m, back := queue[..i], queue[i], queue[i + 1..];
    Around(queue, i);
    RecordsAround(front, m, back);
  }

  /** Both sides of the balance grow by the same record. */
  lemma BothGrow(accepted: multiset<Record>, queue: multiset<Record>, d: multiset<Record>, g: multiset<Record>, one: multiset<Record>)
    requires accepted == queue + d + g
    ensures accepted + one == (queue + one) + d + g
  {
  }

  lemma UserCallCounts(t: seq<Act>, record: Record, ok: bool)
    ensures All(t + [Call(User, record, ok)], Accepted) == All(t, Accepted) + if ok then multiset{record} else multiset{}
    ensures All(t + [Call(User, record, ok)], Delivered) == All(t, Delivered)
    ensures All(t + [Call(User, record, ok)], GivenUp) == All(t, GivenUp)
  {
    AllSnoc(t, Call(User, record, ok), Accepted);
    AllSnoc(t, Call(User, record, ok), Delivered);
    AllSnoc(t, Call(User, record, ok), GivenUp);
  }

  lemma ProduceConserves(s: State, record: Record, accepted: bool)
    requires Conserved(s)
    ensures Conserved(RdProduce(s, User, record, accepted))
  {
    var n := RdProduce(s, User, record, accepted);
    UserCallCounts(s.log, record, accepted);
    if accepted {
      RecordsPut(s.queue, Msg(s.calls, record));
      Balance(n, All(s.log, Accepted), Records(s.queue), All(s.log, Delivered), All(s.log, GivenUp), multiset{record});
    }
  }

  lemma Balance(n: State, accepted: multiset<Record>, queue: multiset<Record>, d: multiset<Record>, g: multiset<Record>,
                one: multiset<Record>)
    requires accepted == queue + d + g
    requires All(n.log, Accepted) == accepted + one && Records(n.queue) == queue + one
    requires All(n.log, Delivered) == d && All(n.log, GivenUp) == g
    ensures Conserved(n)
  {
    BothGrow(accepted, queue, d, g, one);
  }

  /** A report that is not answered with a produce call */
  lemma ReportConserves(s: State, i: nat, err: ErrCode)
    requires Conserved(s) && i < |s.queue|
    ensures Conserved(RdReport(s, i, err))
  {
    var a := Report(s.queue[i], err);
    AllSnoc(s.log, a, Accepted);
    AllSnoc(s.log, a, Delivered);
    AllSnoc(s.log, a, GivenUp);
    RecordsTake(s.queue, i);
  }

  /** The callback puts back the very record whose failure was reported. */
  lemma ResendConserves(s: State, i: nat, err: ErrCode, accepted: bool)
    requires Conserved(s) && i < |s.queue| && err != NO_ERROR
    ensures Conserved(RdProduce(RdReport(s, i, err), Callback, s.queue[i].record, accepted))
  {
    var m, b := s.queue[i], RdReport(s, i, err);
    var n := RdProduce(b, Callback, m.record, accepted);
    if accepted {
      assert n.log == s.log + [Report(m, err), Call(Callback, m.record, true)];
      AllResent(s.log, m, err, m.record, Accepted);
      AllResent(s.log, m, err, m.record, Delivered);
      AllResent(s.log, m, err, m.record, GivenUp);
      RecordsTake(s.queue, i);
      RecordsPut(b.queue, Msg(b.calls, m.record));
    } else {
      ReportConserves(s, i, err);
      var a := Call(Callback, m.record, false);
      AllSnoc(b.log, a, Accepted);
      AllSnoc(b.log, a, Delivered);
      AllSnoc(b.log, a, GivenUp);
    }
  }

  lemma ClearedConserves(s: State)
    requires Conserved(s)
    ensures Conserved(s.(init := false, log := s.log + [Cleared]))
  {
    AllSnoc(s.log, Cleared, Accepted);
    AllSnoc(s.log, Cleared, Delivered);
    AllSnoc(s.log, Cleared, GivenUp);
  }

  lemma NextConserves(sync: bool, s: State, e: Event)
    requires Conserved(s) && Enabled(s, e)
    ensures Conserved(Next(sync, s, e))
  {
    match e
    case Produce(record, accepted) => ProduceConserves(s.(syncErr := ERROR_INIT_VALUE), record, accepted);
    case Reported(i, err, accepted) =>
      ReportConserves(s, i, err);
      if err != NO_ERROR {
        ResendConserves(s, i, err, accepted);
      }
    case UninitBegins => ClearedConserves(s);
    case UninitEnds =>
  }

  lemma {:induction false} RunConserves(sync: bool, run: Run)
    requires Legal(sync, run)
    ensures Conserved(Final(sync, run))
  {
    if run.Then? {
      RunConserves(sync, run.before);
      NextConserves(sync, Final(sync, run.before), run.event);
    }
  }

  /** The records of the sends that were accepted */
  function AcceptedRecords(sends: seq<(Record, bool)>): multiset<Record> {
    if sends == [] then multiset{}
    else
      var p := sends[|sends| - 1];
      AcceptedRecords(sends[..|sends| - 1]) + if p.1 then multiset{p.0} else multiset{}
  }

  lemma {:induction false} AcceptedInLog(t: seq<Act>, n: nat)
    requires n <= |t|
    ensures Collect(t, Accepted, n) == AcceptedRecords(UserCalls(t[..n]))
  {
    if n > 0 {
      AcceptedInLog(t, n - 1);
      assert t[..n][..n - 1] == t[..n - 1];
      var u := UserCalls(t[..n - 1]);
      var a := t[n - 1];
      if a.Call? && a.origin == User {
        assert (u + [(a.record, a.ok)])[..|u|] == u;
      } else {
        assert u + [] == u;
      }
    }
  }

  /** On every run, through any number of failures and resends and across `uninit`: the
      payloads and keys the user sent and librdkafka accepted are exactly those librdkafka
      still has, those it delivered, and those given up. */
  lemma AcceptedIsAccountedFor(sync: bool, run: Run)
    requires Legal(sync, run)
    ensures
      var s := Final(sync, run);
      AcceptedRecords(Sends(run)) == Records(s.queue) + All(s.log, Delivered) + All(s.log, GivenUp)
  {
    RunConserves(sync, run);
    UserCallsAreSends(sync, run);
    var t := Final(sync, run).log;
    AcceptedInLog(t, |t|);
    assert t[..|t|] == t;
  }

  // ---- When the callback resends, and why a message is given up ----

  ghost predicate Failed(t: seq<Act>, j: int) {
    0 <= j < |t| && t[j].Report? && t[j].err != NO_ERROR
  }

  /** A failure of an asynchronous send, reported before `uninit` began */
  ghost predicate InTime(sync: bool, t: seq<Act>, j: int) {
    Failed(t, j) && !sync && Cleared !in t[..j]
  }

  ghost predicate Answers(t: seq<Act>, j: int) {
    0 < j < |t| && t[j].Call? && t[j].origin == Callback && t[j - 1].Report? && t[j].record == t[j - 1].m.record
  }

  /** Every failure in time is answered at once, and nothing else is. */
  ghost predicate Answered(sync: bool, t: seq<Act>) {
    && (forall j :: 0 <= j < |t| && t[j].Call? && t[j].origin == Callback ==> InTime(sync, t, j - 1) && Answers(t, j))
    && (forall j :: InTime(sync, t, j) ==> Answers(t, j + 1))
  }

  ghost predicate FlagOk(s: State) {
    (s.init ==> s.handle) && (s.init <==> Cleared !in s.log)
  }

  /** Entries that neither fail in time nor come from the callback */
  lemma QuietAnswered(sync: bool, t: seq<Act>, a: Act)
    requires Answered(sync, t) && (a.Call? ==> a.origin == User) && !InTime(sync, t + [a], |t|)
    ensures Answered(sync, t + [a])
  {
    var u := t + [a];
    forall j | 0 <= j < |t|
      ensures u[j] == t[j] && u[..j] == t[..j]
    {
    }
    forall j | InTime(sync, u, j) ensures Answers(u, j + 1) {
      assert InTime(sync, t, j);
      assert Answers(t, j + 1);
    }
    forall j | 0 <= j < |u| && u[j].Call? && u[j].origin == Callback ensures InTime(sync, u, j - 1) && Answers(u, j) {
      assert InTime(sync, t, j - 1) && Answers(t, j);
    }
  }

  lemma ResendAnswered(sync: bool, t: seq<Act>, m: Msg, err: ErrCode, ok: bool)
    requires Answered(sync, t) && !sync && err != NO_ERROR && Cleared !in t
    ensures Answered(sync, t + [Report(m, err), Call(Callback, m.record, ok)])
  {
    var u := t + [Report(m, err), Call(Callback, m.record, ok)];
    forall j | 0 <= j < |t|
      ensures u[j] == t[j] && u[..j] == t[..j]
    {
    }
    assert u[..|t|] == t;
    forall j | InTime(sync, u, j) ensures Answers(u, j + 1) {
      if j < |t| {
        assert InTime(sync, t, j);
        assert Answers(t, j + 1);
      }
    }
    forall j | 0 <= j < |u| && u[j].Call? && u[j].origin == Callback ensures InTime(sync, u, j - 1) && Answers(u, j) {
      if j < |t| {
        assert InTime(sync, t, j - 1) && Answers(t, j);
      }
    }
  }

  lemma NextAnswered(sync: bool, s: State, e: Event)
    requires Answered(sync, s.log) && FlagOk(s) && Enabled(s, e)
    ensures Answered(sync, Next(sync, s, e).log) && FlagOk(Next(sync, s, e))
  {
    match e
    case Produce(record, accepted) => QuietAnswered(sync, s.log, Call(User, record, accepted));
    case Reported(i, err, accepted) =>
      var m := s.queue[i];
      assert (s.log + [Report(m, err)])[..|s.log|] == s.log;
      if !sync && err != NO_ERROR && s.init {
        ResendAnswered(sync, s.log, m, err, accepted);
        assert Next(sync, s, e).log == s.log + [Report(m, err), Call(Callback, m.record, accepted)];
      } else {
        QuietAnswered(sync, s.log, Report(m, err));
      }
    case UninitBegins => QuietAnswered(sync, s.log, Cleared);
    case UninitEnds =>
  }

  lemma {:induction false} RunAnswered(sync: bool, run: Run)
    requires Legal(sync, run)
    ensures Answered(sync, Final(sync, run).log) && FlagOk(Final(sync, run))
  {
    if run.Then? {
      RunAnswered(sync, run.before);
      NextAnswered(sync, Final(sync, run.before), run.event);
    }
  }

  /** The callback makes a produce call exactly on a failure of an asynchronous send reported
      before `uninit` began: at once, once, and with that message's own payload and key. */
  lemma CallbackResendsIff(sync: bool, run: Run, j: nat)
    requires Legal(sync, run) && j < |Final(sync, run).log|
    ensures
      var t := Final(sync, run).log;
      && (t[j].Call? && t[j].origin == Callback <==> InTime(sync, t, j - 1))
      && (t[j].Call? && t[j].origin == Callback ==> t[j].record == t[j - 1].m.record)
      && (InTime(sync, t, j) ==> j + 1 < |t|)
  {
    RunAnswered(sync, run);
    var t := Final(sync, run).log;
    if InTime(sync, t, j - 1) {
      assert Answers(t, j);
    }
    if InTime(sync, t, j) {
      assert Answers(t, j + 1);
    }
  }

  /** A failed message is given up if and only if the send was synchronous, its failure was
      reported after `uninit` began, or librdkafka refused the resend. */
  lemma GivenUpIff(sync: bool, run: Run, j: nat)
    requires Legal(sync, run) && Failed(Final(sync, run).log, j)
    ensures
      var t := Final(sync, run).log;
      Is(t, GivenUp, j) <==>
        sync || Cleared in t[..j] || (j + 1 < |t| && t[j + 1] == Call(Callback, t[j].m.record, false))
  {
    RunAnswered(sync, run);
    var t := Final(sync, run).log;
    if InTime(sync, t, j) {
      assert Answers(t, j + 1);
    } else {
      assert j + 1 < |t| && t[j + 1].Call? && t[j + 1].origin == Callback ==> InTime(sync, t, j + 1 - 1);
    }
  }

  // ---- Draining ----

  ghost function Extend(run: Run, events: seq<Event>): Run {
    if events == [] then run else Then(Extend(run, events[..|events| - 1]), events[|events| - 1])
  }

  function Reports(events: seq<Event>): nat {
    if events == [] then 0 else Reports(events[..|events| - 1]) + if events[|events| - 1].Reported? then 1 else 0
  }

  /** A report leaves the queue one message shorter exactly if it is not followed by a resend
      that librdkafka takes. */
  lemma ReportShrinksIff(sync: bool, run: Run, i: nat, err: ErrCode, accepted: bool)
    requires Legal(sync, Then(run, Reported(i, err, accepted)))
    ensures
      var s, n := Final(sync, run), Final(sync, Then(run, Reported(i, err, accepted)));
      |n.queue| == |s.queue| - if !sync && err != NO_ERROR && s.init && accepted then 0 else 1
  {
    RunAnswered(sync, run);
  }

  /** Once `uninit` cleared the flag, whatever happens after: every report leaves one message
      fewer, so there are no more of them than messages were outstanding, that many drain all,
      and nothing is accepted any more. */
  lemma {:induction false} DrainTerminates(sync: bool, run: Run, events: seq<Event>)
    requires Legal(sync, Extend(run, events)) && Legal(sync, run) && !Final(sync, run).init
    ensures
      var s, n := Final(sync, run), Final(sync, Extend(run, events));
      && |n.queue| + Reports(events) == |s.queue| && !n.init
      && (Reports(events) == |s.queue| ==> n.queue == [])
      && n.calls == s.calls
  {
    if events != [] {
      DrainTerminates(sync, run, events[..|events| - 1]);
    }
  }

  lemma RecordsRequeued(queue: seq<Msg>, m: Msg)
    requires queue != [] && m.record == queue[0].record
    ensures Records(queue[1..] + [m]) == Records(queue)
  {
    var rest := queue[1..];
    assert [] + [queue[0]] + rest == queue && [] + rest == rest;
    RecordsAround([], queue[0], rest);
    RecordsPut(rest, m);
  }

  lemma ResendOnce(s: State, err: ErrCode)
    requires s.init && s.handle && s.queue != [] && err != NO_ERROR
    ensures
      var n := Next(false, s, Reported(0, err, true));
      n.init && n.handle && |n.queue| == |s.queue| && Records(n.queue) == Records(s.queue)
  {
    var m := Msg(s.calls, s.queue[0].record);
    assert s.queue[..0] + s.queue[1..] == s.queue[1..];
    assert Next(false, s, Reported(0, err, true)).queue == s.queue[1..] + [m];
    RecordsRequeued(s.queue, m);
  }

  /** Before that, failures alone drain nothing: a message can fail and be resent any number
      of times. */
  lemma {:induction false} ResendsForever(run: Run, err: ErrCode, n: nat) returns (events: seq<Event>)
    requires Legal(false, run) && Final(false, run).init && Final(false, run).queue != [] && err != NO_ERROR
    ensures Legal(false, Extend(run, events)) && |events| == Reports(events) == n
    ensures
      var s, t := Final(false, run), Final(false, Extend(run, events));
      t.init && |t.queue| == |s.queue| && Records(t.queue) == Records(s.queue)
  {
    if n == 0 {
      events := [];
    } else {
      var before := ResendsForever(run, err, n - 1);
      events := before + [Reported(0, err, true)];
      assert events[..|events| - 1] == before;
      RunAnswered(false, Extend(run, before));
      ResendOnce(Final(false, Extend(run, before)), err);
    }
  }

  // ---- Synchronous sends ----

  datatype Rep = Rep(i: nat, err: ErrCode, accepted: bool)

  /** The reports of one poll */
  ghost function AfterPoll(run: Run, batch: seq<Rep>): Run {
    if batch == [] then run
    else
      var r := batch[|batch| - 1];
      Then(AfterPoll(run, batch[..|batch| - 1]), Reported(r.i, r.err, r.accepted))
  }

  function Batch(polls: seq<seq<Rep>>, i: nat): seq<Rep> {
    if i < |polls| then polls[i] else []
  }

  /** The first poll, among the allowed ones, that brings any report; `SYNC_SEND_POLLS` if none */
  function FirstReport(polls: seq<seq<Rep>>, i: nat): (n: nat)
    requires i <= SYNC_SEND_POLLS
    ensures i <= n <= SYNC_SEND_POLLS
    ensures n < SYNC_SEND_POLLS ==> Batch(polls, n) != []
    ensures forall j :: i <= j < n ==> Batch(polls, j) == []
    decreases SYNC_SEND_POLLS - i
  {
    if i == SYNC_SEND_POLLS || Batch(polls, i) != [] then i else FirstReport(polls, i + 1)
  }

  /** The polling of a synchronous send: the first poll that brings reports ends it. */
  ghost function Awaited(run: Run, polls: seq<seq<Rep>>): Run {
    var n := FirstReport(polls, 0);
    if n < SYNC_SEND_POLLS then AfterPoll(run, Batch(polls, n)) else run
  }

  ghost function SyncRun(run: Run, record: Record, polls: seq<seq<Rep>>): Run {
    Awaited(Then(run, Produce(record, true)), polls)
  }

  /** What a synchronous `produce` returns */
  ghost predicate Succeeds(run: Run)
    requires Legal(true, run)
  {
    Final(true, run).syncErr == NO_ERROR
  }

  /** The message that a send from this state hands to librdkafka */
  function Own(s: State, record: Record): Msg {
    Msg(s.calls, record)
  }

  /** The error of the last report since the last send, the initial value if there is none */
  function LastError(run: Run): int {
    match run
    case Start => NO_ERROR
    case Then(before, Produce(record, accepted)) => if Initialized(before) then ERROR_INIT_VALUE else LastError(before)
    case Then(before, Reported(i, err, accepted)) => err
    case Then(before, e) => LastError(before)
  }

  /** In synchronous mode a success is that the last report since the send is error-free. */
  lemma {:induction false} SuccessIsLastReport(run: Run)
    requires Legal(true, run)
    ensures Final(true, run).syncErr == LastError(run)
    ensures Succeeds(run) <==> LastError(run) == NO_ERROR
  {
    if run.Then? {
      SuccessIsLastReport(run.before);
      InitIffInitialized(true, run.before);
    }
  }

  /** Ids are fresh: of everything queued or reported, none has the next call's. */
  ghost predicate Fresh(s: State) {
    && (forall i :: 0 <= i < |s.queue| ==> s.queue[i].id < s.calls)
    && (forall a :: a in s.log && a.Report? ==> a.m.id < s.calls)
  }

  lemma {:induction false} RunFresh(sync: bool, run: Run)
    requires Legal(sync, run)
    ensures Fresh(Final(sync, run))
  {
    if run.Then? {
      RunFresh(sync, run.before);
    }
  }

  /** In synchronous mode a poll takes one message off the queue for each report. */
  lemma {:induction false} PollShrinks(run: Run, batch: seq<Rep>)
    requires Legal(true, AfterPoll(run, batch))
    ensures Legal(true, run)
    ensures
      var s, n := Final(true, run), Final(true, AfterPoll(run, batch));
      && |n.queue| == |s.queue| - |batch| && n.init == s.init && n.calls == s.calls
      && (batch != [] ==> n.syncErr == batch[|batch| - 1].err)
  {
    if batch != [] {
      PollShrinks(run, batch[..|batch| - 1]);
    }
  }

  lemma CallEffect(run: Run, record: Record)
    requires Legal(true, run) && Final(true, run).init
    ensures
      var s := Final(true, run);
      && Legal(true, Then(run, Produce(record, true)))
      && Final(true, Then(run, Produce(record, true))) ==
         s.(queue := s.queue + [Own(s, record)], calls := s.calls + 1, syncErr := ERROR_INIT_VALUE,
            log := s.log + [Call(User, record, true)])
  {
    RunAnswered(true, run);
  }

  lemma OnePollEffect(run: Run, rep: Rep)
    requires Legal(true, run) && Legal(true, AfterPoll(run, [rep]))
    ensures
      var s := Final(true, run);
      && rep.i < |s.queue|
      && Final(true, AfterPoll(run, [rep])).log == s.log + [Report(s.queue[rep.i], rep.err)]
      && Final(true, AfterPoll(run, [rep])).syncErr == rep.err
  {
    assert [rep][..0] == [];
    assert AfterPoll(run, [rep]) == Then(run, Reported(rep.i, rep.err, rep.accepted));
  }

  /** With nothing outstanding on entry, a synchronous send succeeds if and only if this very
      message is reported delivered within the allowed polls. */
  lemma SyncSuccessIsOwn(run: Run, record: Record, polls: seq<seq<Rep>>)
    requires Legal(true, run) && Final(true, run).init && Final(true, run).queue == []
    requires Legal(true, SyncRun(run, record, polls))
    ensures Succeeds(SyncRun(run, record, polls)) <==>
            Report(Own(Final(true, run), record), NO_ERROR) in Final(true, SyncRun(run, record, polls)).log
  {
    var s, c := Final(true, run), Then(run, Produce(record, true));
    CallEffect(run, record);
    RunFresh(true, run);
    var n := FirstReport(polls, 0);
    if n < SYNC_SEND_POLLS {
      var b := Batch(polls, n);
      PollShrinks(c, b);
      assert b == [b[0]];
      OnePollEffect(c, b[0]);
      assert Final(true, c).queue[0] == Own(s, record);
    }
  }

  /** However the polls turn out, a success is this message's own. */
  ghost predicate SuccessIsAlwaysOwn(run: Run, record: Record)
    requires Legal(true, run)
  {
    forall polls :: Legal(true, SyncRun(run, record, polls)) && Succeeds(SyncRun(run, record, polls)) ==>
      Report(Own(Final(true, run), record), NO_ERROR) in Final(true, SyncRun(run, record, polls)).log
  }

  /** In every reachable state, that is so if and only if nothing is outstanding: a late report
      on an earlier message is taken for this one's. */
  lemma SyncAttributionIff(run: Run, record: Record)
    requires Legal(true, run) && Final(true, run).init
    ensures SuccessIsAlwaysOwn(run, record) <==> Final(true, run).queue == []
  {
    var s := Final(true, run);
    if s.queue == [] {
      forall polls | Legal(true, SyncRun(run, record, polls)) && Succeeds(SyncRun(run, record, polls))
        ensures Report(Own(s, record), NO_ERROR) in Final(true, SyncRun(run, record, polls)).log
      {
        SyncSuccessIsOwn(run, record, polls);
      }
    } else {
      StaleSuccess(run, record);
    }
  }

  lemma StaleSuccess(run: Run, record: Record)
    requires Legal(true, run) && Final(true, run).init && Final(true, run).queue != []
    ensures !SuccessIsAlwaysOwn(run, record)
  {
    var s := Final(true, run);
    var rep := Rep(0, NO_ERROR, false);
    var polls := [[rep]];
    var c := Then(run, Produce(record, true));
    CallEffect(run, record);
    RunFresh(true, run);
    RunAnswered(true, run);
    assert FirstReport(polls, 0) == 0;
    var r := SyncRun(run, record, polls);
    assert [rep][..0] == [];
    assert r == AfterPoll(c, [rep]) == Then(c, Reported(0, NO_ERROR, false));
    assert Legal(true, r);
    OnePollEffect(c, rep);
    assert Final(true, r).log == s.log + [Call(User, record, true)] + [Report(s.queue[0], NO_ERROR)];
  }

  /** And such states are reached: a send whose polls bring nothing returns false and leaves
      its message outstanding, so the next send can be told of success by its report. */
  lemma TimedOutSendStays(run: Run, record: Record, polls: seq<seq<Rep>>, next: Record)
    requires Legal(true, run) && Final(true, run).init && FirstReport(polls, 0) == SYNC_SEND_POLLS
    ensures
      var r := SyncRun(run, record, polls);
      && Legal(true, r) && !Succeeds(r) && Own(Final(true, run), record) in Final(true, r).queue
      && !SuccessIsAlwaysOwn(r, next)
  {
    CallEffect(run, record);
    StaleSuccess(SyncRun(run, record, polls), next);
  }
}
