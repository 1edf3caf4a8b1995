/** Turns of the poll loop, and calls of `consume`, as pieces of a run. */
module KafkaTurns {
  import opened KafkaConsumerSpec

  /** What happens in one turn of the poll loop: the rebalances inside the poll, what the
      poll returns, the user's `commitOffset` calls in the callback, the clock at the end. */
  datatype Turn = Turn(
    revokes: seq<(int, seq<string>)>,
    polled: Option<Message>,
    commits: seq<Message>,
    now: int,
    order: seq<string>)

  /** What happens in one call of `consume` */
  datatype Call = Call(revokes: seq<(int, seq<string>)>, polled: Option<Message>, now: int, order: seq<string>)

  ghost function Revokes(run: Run, revokes: seq<(int, seq<string>)>): Run {
    if revokes == [] then run
    else
      var n := |revokes| - 1;
      Then(Revokes(run, revokes[..n]), Revoked(revokes[n].0, revokes[n].1))
  }

  ghost function UserCommits(run: Run, commits: seq<Message>): Run {
    if commits == [] then run
    else Then(UserCommits(run, commits[..|commits| - 1]), CommitOffset(commits[|commits| - 1]))
  }

  ghost function Accepted(cfg: Config, run: Run, m: Message): Run {
    Then(if cfg.autoCommit then Then(run, Polled(m)) else Then(Then(run, Polled(m)), Keep), Delivered)
  }

  ghost function AfterPoll(cfg: Config, run: Run, turn: Turn): Run {
    match turn.polled
    case None => Then(run, PolledNothing)
    case Some(m) =>
      if m.ok then Then(UserCommits(Accepted(cfg, run, m), turn.commits), Return)
      else Then(Then(run, Polled(m)), Drop)
  }

  ghost function AfterTurn(cfg: Config, run: Run, turn: Turn): Run {
    Then(AfterPoll(cfg, Revokes(run, turn.revokes), turn), TimedFlush(turn.now, turn.order))
  }

  ghost function AfterTurns(cfg: Config, run: Run, turns: seq<Turn>): Run {
    if turns == [] then run
    else AfterTurn(cfg, AfterTurns(cfg, run, turns[..|turns| - 1]), turns[|turns| - 1])
  }

  /** One call of `consume` in the pull build */
  ghost function AfterCall(run: Run, call: Call): Run {
    Then(Taken(Revokes(run, call.revokes), call.polled), TimedFlush(call.now, call.order))
  }

  ghost function Taken(run: Run, polled: Option<Message>): Run {
    match polled
    case None => Then(run, PolledNothing)
    case Some(m) => Then(Then(run, Polled(m)), if m.ok then Keep else Drop)
  }

  // ---- The events of a turn, in order ----

  ghost function Events(run: Run): seq<Event> {
    if run.Then? then Events(run.before) + [run.event] else []
  }

  function RevokeEvents(revokes: seq<(int, seq<string>)>): seq<Event> {
    seq(|revokes|, i requires 0 <= i < |revokes| => Revoked(revokes[i].0, revokes[i].1))
  }

  function CommitEvents(commits: seq<Message>): seq<Event> {
    seq(|commits|, i requires 0 <= i < |commits| => CommitOffset(commits[i]))
  }

  function PollEvents(cfg: Config, turn: Turn): seq<Event> {
    match turn.polled
    case None => [PolledNothing]
    case Some(m) =>
      if !m.ok then [Polled(m), Drop]
      else [Polled(m)] + (if cfg.autoCommit then [] else [Keep]) + [Delivered] + CommitEvents(turn.commits) + [Return]
  }

  /** The rebalances, what the poll returned and became of it, the timed flush */
  function TurnEvents(cfg: Config, turn: Turn): seq<Event> {
    RevokeEvents(turn.revokes) + PollEvents(cfg, turn) + [TimedFlush(turn.now, turn.order)]
  }

  function CallEvents(call: Call): seq<Event> {
    var middle :=
      match call.polled
      case None => [PolledNothing]
      case Some(m) => [Polled(m), if m.ok then Keep else Drop];
    RevokeEvents(call.revokes) + middle + [TimedFlush(call.now, call.order)]
  }

  function AllTurnEvents(cfg: Config, turns: seq<Turn>): seq<Event> {
    if turns == [] then [] else AllTurnEvents(cfg, turns[..|turns| - 1]) + TurnEvents(cfg, turns[|turns| - 1])
  }

  lemma {:induction false} EventsOfRevokes(run: Run, revokes: seq<(int, seq<string>)>)
    ensures Events(Revokes(run, revokes)) == Events(run) + RevokeEvents(revokes)
  {
    if revokes != [] {
      var n := |revokes| - 1;
      EventsOfRevokes(run, revokes[..n]);
      assert RevokeEvents(revokes) == RevokeEvents(revokes[..n]) + [Revoked(revokes[n].0, revokes[n].1)];
    }
  }

  lemma {:induction false} EventsOfCommits(run: Run, commits: seq<Message>)
    ensures Events(UserCommits(run, commits)) == Events(run) + CommitEvents(commits)
  {
    if commits != [] {
      var n := |commits| - 1;
      EventsOfCommits(run, commits[..n]);
      assert CommitEvents(commits) == CommitEvents(commits[..n]) + [CommitOffset(commits[n])];
    }
  }

  lemma EventsOfAccepted(cfg: Config, run: Run, m: Message)
    ensures Events(Accepted(cfg, run, m)) == Events(run) + [Polled(m)] + (if cfg.autoCommit then [] else [Keep]) + [Delivered]
  {
    var polled := Then(run, Polled(m));
    assert Events(polled) == Events(run) + [Polled(m)];
    if cfg.autoCommit {
      assert Events(polled) + [] == Events(polled);
    } else {
      assert Events(Then(polled, Keep)) == Events(polled) + [Keep];
    }
  }

  lemma EventsOfPoll(cfg: Config, run: Run, turn: Turn)
    ensures Events(AfterPoll(cfg, run, turn)) == Events(run) + PollEvents(cfg, turn)
  {
    if turn.polled.Some? {
      var m := turn.polled.value;
      if m.ok {
        EventsOfAccepted(cfg, run, m);
        EventsOfCommits(Accepted(cfg, run, m), turn.commits);
      } else {
        assert Events(Then(run, Polled(m))) == Events(run) + [Polled(m)];
      }
    }
  }

  lemma EventsOfTurn(cfg: Config, run: Run, turn: Turn)
    ensures Events(AfterTurn(cfg, run, turn)) == Events(run) + TurnEvents(cfg, turn)
  {
    EventsOfRevokes(run, turn.revokes);
    EventsOfPoll(cfg, Revokes(run, turn.revokes), turn);
  }

  lemma EventsOfCall(run: Run, call: Call)
    ensures Events(AfterCall(run, call)) == Events(run) + CallEvents(call)
  {
    var r := Revokes(run, call.revokes);
    EventsOfRevokes(run, call.revokes);
    if call.polled.Some? {
      assert Events(Then(r, Polled(call.polled.value))) == Events(r) + [Polled(call.polled.value)];
    }
  }

  lemma {:induction false} EventsOfTurns(cfg: Config, run: Run, turns: seq<Turn>)
    ensures Events(AfterTurns(cfg, run, turns)) == Events(run) + AllTurnEvents(cfg, turns)
  {
    if turns != [] {
      EventsOfTurns(cfg, run, turns[..|turns| - 1]);
      EventsOfTurn(cfg, AfterTurns(cfg, run, turns[..|turns| - 1]), turns[|turns| - 1]);
    }
  }

  // ---- The history of a legal run is legal ----

  lemma {:induction false} RevokesLegal(cfg: Config, run: Run, revokes: seq<(int, seq<string>)>, n: nat)
    requires Legal(cfg, Revokes(run, revokes)) && n <= |revokes|
    ensures Legal(cfg, Revokes(run, revokes[..n]))
  {
    if n < |revokes| {
      var p := revokes[..|revokes| - 1];
      RevokesLegal(cfg, run, p, n);
      assert p[..n] == revokes[..n];
    } else {
      assert revokes[..n] == revokes;
    }
  }

  lemma {:induction false} CommitsLegal(cfg: Config, run: Run, commits: seq<Message>, n: nat)
    requires Legal(cfg, UserCommits(run, commits)) && n <= |commits|
    ensures Legal(cfg, UserCommits(run, commits[..n]))
  {
    if n < |commits| {
      var p := commits[..|commits| - 1];
      CommitsLegal(cfg, run, p, n);
      assert p[..n] == commits[..n];
    } else {
      assert commits[..n] == commits;
    }
  }

  lemma AfterTurnLegal(cfg: Config, run: Run, turn: Turn)
    requires Legal(cfg, AfterTurn(cfg, run, turn))
    ensures Legal(cfg, Revokes(run, turn.revokes)) && Legal(cfg, run)
    ensures turn.polled.Some? && turn.polled.value.ok ==>
      var r := Accepted(cfg, Revokes(run, turn.revokes), turn.polled.value);
      Legal(cfg, UserCommits(r, turn.commits)) && Legal(cfg, r)
    ensures turn.polled.Some? ==> Legal(cfg, Then(Revokes(run, turn.revokes), Polled(turn.polled.value)))
  {
    var r := Revokes(run, turn.revokes);
    var q := AfterPoll(cfg, r, turn);
    assert Legal(cfg, q);
    if turn.polled.Some? && turn.polled.value.ok {
      var a := Accepted(cfg, r, turn.polled.value);
      assert Legal(cfg, UserCommits(a, turn.commits));
      CommitsLegal(cfg, a, turn.commits, 0);
      assert Legal(cfg, a) && Legal(cfg, a.before);
      if !cfg.autoCommit {
        assert Legal(cfg, a.before.before);
      }
    } else {
      assert Legal(cfg, q.before);
    }
    RevokesLegal(cfg, run, turn.revokes, 0);
  }

  lemma {:induction false} TurnsLegal(cfg: Config, run: Run, turns: seq<Turn>, n: nat)
    requires Legal(cfg, AfterTurns(cfg, run, turns)) && n <= |turns|
    ensures Legal(cfg, AfterTurns(cfg, run, turns[..n]))
  {
    if n < |turns| {
      var p := turns[..|turns| - 1];
      AfterTurnLegal(cfg, AfterTurns(cfg, run, p), turns[|turns| - 1]);
      TurnsLegal(cfg, run, p, n);
      assert p[..n] == turns[..n];
    } else {
      assert turns[..n] == turns;
    }
  }

  lemma AfterCallLegal(cfg: Config, run: Run, call: Call)
    requires Legal(cfg, AfterCall(run, call))
    ensures Legal(cfg, run) && Legal(cfg, Revokes(run, call.revokes)) && Legal(cfg, Taken(Revokes(run, call.revokes), call.polled))
    ensures call.polled.Some? ==> Legal(cfg, Then(Revokes(run, call.revokes), Polled(call.polled.value)))
  {
    var t := Taken(Revokes(run, call.revokes), call.polled);
    assert Legal(cfg, t) && Legal(cfg, t.before);
    RevokesLegal(cfg, run, call.revokes, 0);
  }
}
