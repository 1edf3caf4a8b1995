/** The message bookkeeping of the Kafka consumer as a state machine.

    librdkafka and the user's callback are the environment: every choice they make is an
    argument of an event.  What the consumer does with the choice is `Next`, and what the
    environment may choose is `Enabled`.  A `Run` is any finite history of enabled events. */
module KafkaConsumerSpec {
  import opened MapWalk

  datatype Option<T> = None | Some(value: T)

  /** A polled `rd_kafka_message_t*`.  The serial number (how many messages were polled
      before) stands for the pointer: the consumer only ever compares live pointers. */
  datatype Message = Message(serial: nat, topic: string, partition: int, offset: int, ok: bool)

  /** Is this the pull build, in which the user calls `consume` and there is no polling thread?
      Then `enable.auto.commit`, `user.manual.commit.offset`, `manual.commit.time.ms`, and the
      function that names the waiting slot of a message. */
  datatype Config = Config(pull: bool, autoCommit: bool, userCommit: bool, intervalMs: int, key: Message -> string)

  function KeyOf(cfg: Config, m: Message): string {
    cfg.key(m)
  }

  /** What can happen to a message.  A request is a call of `addWaitCommitOffset`. */
  datatype Act =
    | Poll(m: Message)
    | Deliver(m: Message)
    | Request(m: Message)
    | Commit(m: Message)
    | Destroy(m: Message)

  /** Where the polling thread is, and, after it was joined, where `stop` is. */
  datatype Phase =
    | Polling
    | Hand(m: Message)
    | Kept(m: Message)
    | Callback(m: Message)
    | Flushing
    | Exiting
    | Joined
    | Drained
    | Closing

  datatype State = State(
    phase: Phase,
    polls: nat,
    slots: map<string, Message>,
    vecs: map<string, seq<Message>>,
    lastMs: int,
    trace: seq<Act>)

  const INIT := State(Polling, 0, map[], map[], 0, [])

  // ---- The operations on the two maps ----

  function Vec(s: State, k: string): seq<Message> {
    if k in s.vecs then s.vecs[k] else []
  }

  function DestroyAll(msgs: seq<Message>): seq<Act> {
    seq(|msgs|, i requires 0 <= i < |msgs| => Destroy(msgs[i]))
  }

  function IndexOf(msgs: seq<Message>, m: Message): (i: nat)
    requires m in msgs
    ensures i < |msgs| && msgs[i] == m && m !in msgs[..i]
  {
    if msgs[0] == m then 0 else 1 + IndexOf(msgs[1..], m)
  }

  /** `addWaitCommitOffset`: the new message takes the slot, its old occupant is destroyed. */
  function AddWaitCommit(cfg: Config, s: State, m: Message): State {
    var k := KeyOf(cfg, m);
    var displaced := if k in s.slots then [Destroy(s.slots[k])] else [];
    s.(slots := s.slots[k := m], trace := s.trace + displaced + [Request(m)])
  }

  /** `addWaitDestroyMsgs` */
  function AddWaitDestroy(cfg: Config, s: State, m: Message): State {
    var k := KeyOf(cfg, m);
    s.(vecs := s.vecs[k := Vec(s, k) + [m]])
  }

  /** `removeWaitDestroyMsgs`: destroys what precedes the message, forgets the message itself. */
  function RemoveWaitDestroy(cfg: Config, s: State, m: Message): State {
    var k := KeyOf(cfg, m);
    if k in s.vecs && m in s.vecs[k] then
      var f := IndexOf(s.vecs[k], m);
      s.(vecs := s.vecs[k := s.vecs[k][f + 1..]], trace := s.trace + DestroyAll(s.vecs[k][..f]))
    else
      s
  }

  /** `commitOffset` in user-manual mode */
  function UserCommit(cfg: Config, s: State, m: Message): State {
    RemoveWaitDestroy(cfg, AddWaitCommit(cfg, s, m), m)
  }

  function FlushOne(s: State, k: string): State {
    if k in s.slots then
      s.(slots := s.slots - {k}, trace := s.trace + [Commit(s.slots[k]), Destroy(s.slots[k])])
    else
      s
  }

  /** Commits and destroys the slots in the given order. */
  function FlushSlots(s: State, order: seq<string>): State {
    if order == [] then s else FlushOne(FlushSlots(s, order[..|order| - 1]), order[|order| - 1])
  }

  predicate Fires(cfg: Config, s: State, force: bool, now: int) {
    force || now - s.lastMs >= cfg.intervalMs
  }

  /** `manualCommitWaitOffset` behind its guard "not auto commit" */
  function Flush(cfg: Config, s: State, force: bool, now: int, order: seq<string>): State {
    if !cfg.autoCommit && Fires(cfg, s, force, now) then
      FlushSlots(s, order).(lastMs := now)
    else
      s
  }

  function ReleaseOne(s: State, k: string): State {
    if k in s.vecs then
      s.(vecs := s.vecs - {k}, trace := s.trace + DestroyAll(s.vecs[k]))
    else
      s
  }

  function ReleaseVecs(s: State, order: seq<string>): State {
    if order == [] then s else ReleaseOne(ReleaseVecs(s, order[..|order| - 1]), order[|order| - 1])
  }

  /** `clearWaitDestroyMsgs`: destroys every vector's messages but leaves the map as it is. */
  function ClearWaitDestroy(s: State, order: seq<string>): State {
    s.(trace := ReleaseVecs(s, order).trace)
  }

  // ---- The environment and the control flow ----

  datatype Event =
    | Revoked(now: int, order: seq<string>)
    | PolledNothing
    | Polled(m: Message)
    | Drop
    | Keep
    | Delivered
    | CommitOffset(rd: Message)
    | Return
    | TimedFlush(now: int, order: seq<string>)
    | Exit
    | ForcedFlush(now: int, order: seq<string>)
    | Clear(order: seq<string>)

  predicate Holds(cfg: Config, s: State, m: Message) {
    m in Vec(s, KeyOf(cfg, m))
  }

  /** The user commits from the callback; in the pull build, between two calls of `consume`. */
  predicate CanCommit(cfg: Config, s: State) {
    if cfg.pull then s.phase.Polling? else s.phase.Callback?
  }

  /** When the control flow can be at an event and the environment may choose it. */
  ghost predicate Enabled(cfg: Config, s: State, e: Event) {
    match e
    case Revoked(now, order) => (s.phase.Polling? || s.phase.Closing?) && Enumerates(order, s.slots.Keys)
    case PolledNothing => s.phase.Polling?
    case Polled(m) => s.phase.Polling? && m.serial == s.polls
    case Drop => s.phase.Hand? && !s.phase.m.ok
    case Keep => s.phase.Hand? && s.phase.m.ok && (cfg.pull || !cfg.autoCommit)
    case Delivered => !cfg.pull && (s.phase.Kept? || (s.phase.Hand? && s.phase.m.ok && cfg.autoCommit))
    case CommitOffset(rd) => CanCommit(cfg, s) && (cfg.userCommit ==> Holds(cfg, s, rd))
    case Return => s.phase.Callback?
    case TimedFlush(now, order) =>
      (s.phase.Flushing? || s.phase.Exiting? || (cfg.pull && s.phase.Closing?)) && Enumerates(order, s.slots.Keys)
    case Exit => !cfg.pull && s.phase.Polling?
    case ForcedFlush(now, order) => (if cfg.pull then s.phase.Polling? else s.phase.Joined?) && Enumerates(order, s.slots.Keys)
    case Clear(order) => s.phase.Drained? && Enumerates(order, s.vecs.Keys)
  }

  /** An accepted message goes to a vector or to a slot; in auto-commit mode, which only the
      pull build comes here in, its contents were copied and it is destroyed. */
  function KeepIt(cfg: Config, s: State, m: Message): State {
    if cfg.autoCommit then s.(trace := s.trace + [Destroy(m)])
    else if cfg.userCommit then AddWaitDestroy(cfg, s, m)
    else AddWaitCommit(cfg, s, m)
  }

  function Next(cfg: Config, s: State, e: Event): State
    requires Enabled(cfg, s, e)
  {
    match e
    case Revoked(now, order) => Flush(cfg, s, true, now, order)
    case PolledNothing => s.(phase := Flushing)
    case Polled(m) => s.(phase := Hand(m), polls := s.polls + 1, trace := s.trace + [Poll(m)])
    case Drop => s.(phase := Flushing, trace := s.trace + [Destroy(s.phase.m)])
    case Keep => KeepIt(cfg, s, s.phase.m).(phase := if cfg.pull then Flushing else Kept(s.phase.m))
    case Delivered => s.(phase := Callback(s.phase.m), trace := s.trace + [Deliver(s.phase.m)])
    case CommitOffset(rd) => if cfg.userCommit then UserCommit(cfg, s, rd) else s
    case Return =>
      s.(phase := Flushing, trace := s.trace + if cfg.autoCommit then [Destroy(s.phase.m)] else [])
    case TimedFlush(now, order) =>
      Flush(cfg, s, false, now, order).(phase :=
        if s.phase.Flushing? then Polling else if s.phase.Exiting? then Joined else s.phase)
    case Exit => s.(phase := Exiting)
    case ForcedFlush(now, order) => Flush(cfg, s, true, now, order).(phase := Drained)
    case Clear(order) => (if cfg.userCommit then ClearWaitDestroy(s, order) else s).(phase := Closing)
  }

  datatype Run = Start | Then(before: Run, event: Event)

  /** The configuration code turns auto commit off in user-manual mode. */
  predicate ModeOk(cfg: Config) {
    cfg.userCommit ==> !cfg.autoCommit
  }

  ghost predicate Legal(cfg: Config, run: Run)
    decreases run, 0
  {
    match run
    case Start => ModeOk(cfg)
    case Then(before, e) => Legal(cfg, before) && Enabled(cfg, Final(cfg, before), e)
  }

  ghost function Final(cfg: Config, run: Run): State
    requires Legal(cfg, run)
    decreases run, 1
  {
    match run
    case Start => INIT
    case Then(before, e) => Next(cfg, Final(cfg, before), e)
  }
}
