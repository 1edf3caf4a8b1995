/** Who owns a polled message.  Over every run, at every step boundary, a polled message is
    in exactly one place, and nothing touches it after it was destroyed. */
module KafkaOwnership {
  import opened KafkaConsumerSpec
  import opened MapWalk

  ghost predicate Live(t: seq<Act>, m: Message) {
    Poll(m) in t && Destroy(m) !in t
  }

  /** Only polled messages are touched, each is polled once, and destroying one is the last
      thing that happens to it. */
  ghost predicate Safe(t: seq<Act>) {
    forall j :: 0 <= j < |t| ==> SafeNext(t[..j], t[j])
  }

  ghost predicate SafeNext(t: seq<Act>, a: Act) {
    Destroy(a.m) !in t && (a.Poll? <==> Poll(a.m) !in t)
  }

  // ---- The places a message can be in ----

  datatype Place = TheHand | Slot(k: string) | Cell(k: string, i: nat) | Gone

  /** The polling thread's local variable owns a message until it is kept or, in auto-commit
      mode, until the callback returned. */
  ghost predicate InHand(cfg: Config, s: State, m: Message) {
    (s.phase.Hand? || (s.phase.Callback? && cfg.autoCommit)) && s.phase.m == m
  }

  ghost predicate At(cfg: Config, s: State, m: Message, p: Place) {
    match p
    case TheHand => InHand(cfg, s, m)
    case Slot(k) => k in s.slots && s.slots[k] == m
    case Cell(k, i) => !s.phase.Closing? && k in s.vecs && i < |s.vecs[k]| && s.vecs[k][i] == m
    case Gone => Destroy(m) in s.trace
  }

  ghost predicate InExactlyOnePlace(cfg: Config, s: State, m: Message) {
    exists p :: At(cfg, s, m, p) && forall q :: At(cfg, s, m, q) ==> q == p
  }

  // ---- The invariant ----

  ghost predicate InSlot(cfg: Config, s: State, m: Message) {
    KeyOf(cfg, m) in s.slots && s.slots[KeyOf(cfg, m)] == m
  }

  /** Slots and vectors hold live messages under their own keys, in poll order, the slot
      before the vector, all polled before `limit`. */
  ghost predicate Tidy(cfg: Config, s: State, limit: nat) {
    && (forall k :: k in s.slots ==>
          KeyOf(cfg, s.slots[k]) == k && s.slots[k].serial < limit && Live(s.trace, s.slots[k]))
    && (forall k, i :: k in s.vecs && 0 <= i < |s.vecs[k]| ==>
          KeyOf(cfg, s.vecs[k][i]) == k && s.vecs[k][i].serial < limit && Live(s.trace, s.vecs[k][i]))
    && (forall k, i, j :: k in s.vecs && 0 <= i < j < |s.vecs[k]| ==>
          s.vecs[k][i].serial < s.vecs[k][j].serial)
    && (forall k, i :: k in s.slots && k in s.vecs && 0 <= i < |s.vecs[k]| ==>
          s.slots[k].serial < s.vecs[k][i].serial)
  }

  /** No live message is lost: each is in its slot, in its vector, or in `hand`. */
  ghost predicate Accounted(cfg: Config, s: State, hand: set<Message>) {
    forall m :: Live(s.trace, m) ==> InSlot(cfg, s, m) || Holds(cfg, s, m) || m in hand
  }

  ghost predicate Good(cfg: Config, s: State, limit: nat, hand: set<Message>) {
    Tidy(cfg, s, limit) && Accounted(cfg, s, hand) && Safe(s.trace)
  }

  ghost function HandOf(cfg: Config, s: State): set<Message> {
    if s.phase.Hand? || (s.phase.Callback? && cfg.autoCommit) then {s.phase.m} else {}
  }

  ghost function Limit(s: State): nat {
    if s.phase.Hand? then s.phase.m.serial else s.polls
  }

  ghost predicate Inv(cfg: Config, s: State) {
    && ModeOk(cfg)
    && (cfg.autoCommit || s.phase.Drained? || s.phase.Closing? ==> s.slots == map[])
    && (!cfg.userCommit ==> s.vecs == map[])
    && (forall m :: Poll(m) in s.trace ==> m.serial < s.polls)
    && (s.phase.Hand? ==> s.phase.m.serial + 1 == s.polls)
    && (s.phase.Hand? || s.phase.Kept? || (s.phase.Callback? && cfg.autoCommit) ==> Live(s.trace, s.phase.m))
    && if s.phase.Closing? then Safe(s.trace) && forall m :: !Live(s.trace, m)
       else Good(cfg, s, Limit(s), HandOf(cfg, s))
  }

  // ---- Growing a safe trace ----

  lemma SafeSnoc(t: seq<Act>, a: Act)
    requires Safe(t) && SafeNext(t, a)
    ensures Safe(t + [a])
  {
    var u := t + [a];
    forall j | 0 <= j < |u| ensures SafeNext(u[..j], u[j]) {
      assert u[..j] == if j < |t| then t[..j] else t;
    }
  }

  lemma {:induction false} SafeDestroyAll(t: seq<Act>, msgs: seq<Message>)
    requires Safe(t)
    requires forall i :: 0 <= i < |msgs| ==> Live(t, msgs[i])
    requires forall i, j :: 0 <= i < j < |msgs| ==> msgs[i] != msgs[j]
    ensures Safe(t + DestroyAll(msgs))
  {
    if msgs == [] {
      assert t + DestroyAll(msgs) == t;
    } else {
      var n := |msgs| - 1;
      SafeDestroyAll(t, msgs[..n]);
      var u := t + DestroyAll(msgs[..n]);
      assert Destroy(msgs[n]) !in DestroyAll(msgs[..n]);
      SafeSnoc(u, Destroy(msgs[n]));
      assert t + DestroyAll(msgs) == u + [Destroy(msgs[n])];
    }
  }

  lemma DestroyAllActs(msgs: seq<Message>)
    ensures forall a: Act :: a in DestroyAll(msgs) <==> a.Destroy? && a.m in msgs
  {
    forall a: Act | a.Destroy? && a.m in msgs ensures a in DestroyAll(msgs) {
      var i :| 0 <= i < |msgs| && msgs[i] == a.m;
      assert DestroyAll(msgs)[i] == a;
    }
  }

  // ---- Each operation keeps the maps good ----

  ghost function Displaced(s: State, k: string): seq<Act> {
    if k in s.slots then [Destroy(s.slots[k])] else []
  }

  lemma RequestTrace(cfg: Config, s: State, m: Message)
    requires Safe(s.trace) && Live(s.trace, m)
    requires KeyOf(cfg, m) in s.slots ==> Live(s.trace, s.slots[KeyOf(cfg, m)]) && s.slots[KeyOf(cfg, m)] != m
    ensures
      var t := AddWaitCommit(cfg, s, m).trace;
      Safe(t) && forall x :: Live(t, x) <==> Live(s.trace, x) && Destroy(x) !in Displaced(s, KeyOf(cfg, m))
  {
    var d := Displaced(s, KeyOf(cfg, m));
    if d != [] {
      SafeSnoc(s.trace, d[0]);
      assert s.trace + d == s.trace + [d[0]];
    } else {
      assert s.trace + d == s.trace;
    }
    SafeSnoc(s.trace + d, Request(m));
  }

  lemma AddWaitCommitTidy(cfg: Config, s: State, m: Message, n: State)
    requires Tidy(cfg, s, m.serial) && Live(s.trace, m) && s.vecs == map[]
    requires n.slots == s.slots[KeyOf(cfg, m) := m] && n.vecs == map[]
    requires forall x :: Live(n.trace, x) <==> Live(s.trace, x) && Destroy(x) !in Displaced(s, KeyOf(cfg, m))
    ensures Tidy(cfg, n, m.serial + 1)
  {
  }

  lemma AddWaitCommitAccounted(cfg: Config, s: State, m: Message, n: State)
    requires Accounted(cfg, s, {m}) && s.vecs == map[]
    requires n.slots == s.slots[KeyOf(cfg, m) := m]
    requires forall x :: Live(n.trace, x) ==> Live(s.trace, x) && Destroy(x) !in Displaced(s, KeyOf(cfg, m))
    ensures Accounted(cfg, n, {})
  {
    forall x | Live(n.trace, x) ensures InSlot(cfg, n, x) || Holds(cfg, n, x) {
      assert Live(s.trace, x);
    }
  }

  lemma AddWaitCommitKeeps(cfg: Config, s: State, m: Message)
    requires Good(cfg, s, m.serial, {m}) && Live(s.trace, m) && s.vecs == map[]
    ensures Good(cfg, AddWaitCommit(cfg, s, m), m.serial + 1, {})
  {
    RequestTrace(cfg, s, m);
    AddWaitCommitTidy(cfg, s, m, AddWaitCommit(cfg, s, m));
    AddWaitCommitAccounted(cfg, s, m, AddWaitCommit(cfg, s, m));
  }

  lemma AddWaitDestroyTidy(cfg: Config, s: State, m: Message)
    requires Tidy(cfg, s, m.serial) && Live(s.trace, m)
    ensures Tidy(cfg, AddWaitDestroy(cfg, s, m), m.serial + 1)
  {
  }

  lemma AddWaitDestroyAccounted(cfg: Config, s: State, m: Message)
    requires Accounted(cfg, s, {m})
    ensures Accounted(cfg, AddWaitDestroy(cfg, s, m), {})
  {
    var n := AddWaitDestroy(cfg, s, m);
    var k := KeyOf(cfg, m);
    assert n.vecs[k][|n.vecs[k]| - 1] == m;
    forall x | Live(n.trace, x) ensures InSlot(cfg, n, x) || Holds(cfg, n, x) {
      assert Live(s.trace, x);
      if x != m && Holds(cfg, s, x) && KeyOf(cfg, x) == k {
        var i :| 0 <= i < |Vec(s, k)| && Vec(s, k)[i] == x;
        assert n.vecs[k][i] == x;
      }
    }
  }

  lemma AddWaitDestroyKeeps(cfg: Config, s: State, m: Message)
    requires Good(cfg, s, m.serial, {m}) && Live(s.trace, m)
    ensures Good(cfg, AddWaitDestroy(cfg, s, m), m.serial + 1, {})
  {
    AddWaitDestroyTidy(cfg, s, m);
    AddWaitDestroyAccounted(cfg, s, m);
  }

  /** Commits and destroys one slot's occupant. */
  lemma FlushOneTrace(cfg: Config, s: State, k: string)
    requires Safe(s.trace) && k in s.slots && Live(s.trace, s.slots[k])
    ensures Safe(FlushOne(s, k).trace)
    ensures forall x :: Live(FlushOne(s, k).trace, x) <==> Live(s.trace, x) && x != s.slots[k]
  {
    var m := s.slots[k];
    SafeSnoc(s.trace, Commit(m));
    SafeSnoc(s.trace + [Commit(m)], Destroy(m));
    assert FlushOne(s, k).trace == s.trace + [Commit(m)] + [Destroy(m)];
  }

  lemma FlushOneKeeps(cfg: Config, s: State, k: string, limit: nat, hand: set<Message>)
    requires Good(cfg, s, limit, hand)
    requires forall m :: m in hand ==> m.serial >= limit
    ensures Good(cfg, FlushOne(s, k), limit, hand)
  {
    if k in s.slots {
      FlushOneTrace(cfg, s, k);
      var n := FlushOne(s, k);
      assert Tidy(cfg, n, limit);
      forall x | Live(n.trace, x) ensures InSlot(cfg, n, x) || Holds(cfg, n, x) || x in hand {
        assert Live(s.trace, x);
      }
    }
  }

  lemma {:induction false} FlushSlotsKeep(cfg: Config, s: State, order: seq<string>, limit: nat, hand: set<Message>)
    requires Good(cfg, s, limit, hand)
    requires forall m :: m in hand ==> m.serial >= limit
    ensures Good(cfg, FlushSlots(s, order), limit, hand)
  {
    if order != [] {
      var n := |order| - 1;
      FlushSlotsKeep(cfg, s, order[..n], limit, hand);
      FlushOneKeeps(cfg, FlushSlots(s, order[..n]), order[n], limit, hand);
    }
  }

  lemma {:induction false} FlushSlotsFrame(s: State, order: seq<string>)
    ensures FlushSlots(s, order).slots.Keys == s.slots.Keys - set k | k in order
    ensures FlushSlots(s, order).(slots := s.slots, trace := s.trace) == s
    ensures forall m :: Poll(m) in FlushSlots(s, order).trace ==> Poll(m) in s.trace
  {
    if order != [] {
      var n := |order| - 1;
      FlushSlotsFrame(s, order[..n]);
      assert order == order[..n] + [order[n]];
    }
  }

  lemma ReleaseOneTrace(s: State, k: string)
    requires Safe(s.trace) && k in s.vecs
    requires forall i :: 0 <= i < |s.vecs[k]| ==> Live(s.trace, s.vecs[k][i])
    requires forall i, j :: 0 <= i < j < |s.vecs[k]| ==> s.vecs[k][i] != s.vecs[k][j]
    ensures Safe(ReleaseOne(s, k).trace)
    ensures forall x :: Live(ReleaseOne(s, k).trace, x) <==> Live(s.trace, x) && x !in s.vecs[k]
  {
    DestroyAllActs(s.vecs[k]);
    SafeDestroyAll(s.trace, s.vecs[k]);
  }

  lemma ReleaseOneTidy(cfg: Config, s: State, k: string, limit: nat, n: State)
    requires Tidy(cfg, s, limit) && k in s.vecs
    requires n.slots == s.slots && n.vecs == s.vecs - {k}
    requires forall x :: Live(n.trace, x) <==> Live(s.trace, x) && x !in s.vecs[k]
    ensures Tidy(cfg, n, limit)
  {
  }

  lemma ReleaseOneKeeps(cfg: Config, s: State, k: string, limit: nat)
    requires Good(cfg, s, limit, {})
    ensures Good(cfg, ReleaseOne(s, k), limit, {})
  {
    if k in s.vecs {
      var n := ReleaseOne(s, k);
      ReleaseOneTrace(s, k);
      ReleaseOneTidy(cfg, s, k, limit, n);
      forall x | Live(n.trace, x) ensures InSlot(cfg, n, x) || Holds(cfg, n, x) {
        assert Live(s.trace, x);
      }
    }
  }

  lemma {:induction false} ReleaseVecsKeep(cfg: Config, s: State, order: seq<string>, limit: nat)
    requires Good(cfg, s, limit, {})
    ensures Good(cfg, ReleaseVecs(s, order), limit, {})
    ensures ReleaseVecs(s, order).vecs.Keys == s.vecs.Keys - set k | k in order
    ensures ReleaseVecs(s, order).(vecs := s.vecs, trace := s.trace) == s
    ensures forall m :: Poll(m) in ReleaseVecs(s, order).trace ==> Poll(m) in s.trace
  {
    if order != [] {
      var n := |order| - 1;
      ReleaseVecsKeep(cfg, s, order[..n], limit);
      var b := ReleaseVecs(s, order[..n]);
      ReleaseOneKeeps(cfg, b, order[n], limit);
      if order[n] in b.vecs { DestroyAllActs(b.vecs[order[n]]); }
      assert order == order[..n] + [order[n]];
    }
  }

  /** The acts of a user commit: the displaced message, if any, and the messages before the
      committed one are destroyed. */
  lemma CommitActs(t: seq<Act>, displaced: seq<Act>, m: Message, front: seq<Message>)
    requires Safe(t) && Live(t, m)
    requires displaced == [] || (|displaced| == 1 && displaced[0].Destroy? && Live(t, displaced[0].m))
    requires forall i :: 0 <= i < |front| ==> Live(t, front[i]) && front[i] != m && Destroy(front[i]) !in displaced
    requires forall i, j :: 0 <= i < j < |front| ==> front[i] != front[j]
    requires Destroy(m) !in displaced
    ensures
      var u := t + displaced + [Request(m)] + DestroyAll(front);
      Safe(u) && forall x :: Live(u, x) <==> Live(t, x) && Destroy(x) !in displaced && x !in front
  {
    DestroyAllActs(front);
    if displaced == [] {
      assert t + displaced == t;
    } else {
      SafeSnoc(t, displaced[0]);
      assert t + displaced == t + [displaced[0]];
    }
    SafeSnoc(t + displaced, Request(m));
    SafeDestroyAll(t + displaced + [Request(m)], front);
  }

  /** What `commitOffset` does in user-manual mode, seen from the vector: the prefix up to the
      committed message leaves it, everything before that message is destroyed, and the
      message itself takes the slot, whose old occupant is destroyed. */
  lemma UserCommitEffect(cfg: Config, s: State, m: Message) returns (front: seq<Message>, back: seq<Message>)
    requires Holds(cfg, s, m)
    ensures
      var k := KeyOf(cfg, m);
      && s.vecs[k] == front + [m] + back
      && m !in front
      && UserCommit(cfg, s, m) ==
         s.(slots := s.slots[k := m], vecs := s.vecs[k := back],
            trace := s.trace + Displaced(s, k) + [Request(m)] + DestroyAll(front))
  {
    var k := KeyOf(cfg, m);
    var f := IndexOf(s.vecs[k], m);
    front, back := s.vecs[k][..f], s.vecs[k][f + 1..];
  }

  /** `k`'s vector is cut in two at `m` */
  ghost predicate Cut(cfg: Config, s: State, k: string, front: seq<Message>, m: Message, back: seq<Message>) {
    k == KeyOf(cfg, m) && k in s.vecs && s.vecs[k] == front + [m] + back
  }

  lemma CutFacts(cfg: Config, s: State, k: string, front: seq<Message>, m: Message, back: seq<Message>, limit: nat)
    requires Tidy(cfg, s, limit) && Cut(cfg, s, k, front, m, back)
    ensures forall i :: 0 <= i < |front| ==>
      KeyOf(cfg, front[i]) == k && Live(s.trace, front[i]) && front[i].serial < m.serial
    ensures forall i :: 0 <= i < |back| ==>
      KeyOf(cfg, back[i]) == k && Live(s.trace, back[i]) && m.serial < back[i].serial < limit
    ensures Live(s.trace, m) && m.serial < limit
    ensures k in s.slots ==> s.slots[k].serial < m.serial
    ensures k in s.slots ==> forall i :: 0 <= i < |front| ==> s.slots[k].serial < front[i].serial
    ensures forall i, j :: 0 <= i < j < |front| ==> front[i].serial < front[j].serial
    ensures forall i, j :: 0 <= i < j < |back| ==> back[i].serial < back[j].serial
  {
    var v, f := s.vecs[k], |front|;
    assert v[f] == m;
    assert forall i :: 0 <= i < |front| ==> front[i] == v[i];
    assert forall i :: 0 <= i < |back| ==> back[i] == v[f + 1 + i];
  }

  lemma UserCommitTrace(cfg: Config, s: State, k: string, front: seq<Message>, m: Message, back: seq<Message>, limit: nat)
    requires Tidy(cfg, s, limit) && Safe(s.trace) && Cut(cfg, s, k, front, m, back)
    ensures
      var t := s.trace + Displaced(s, k) + [Request(m)] + DestroyAll(front);
      Safe(t) && forall x :: Live(t, x) <==> Live(s.trace, x) && Destroy(x) !in Displaced(s, k) && x !in front
  {
    CutFacts(cfg, s, k, front, m, back, limit);
    CommitActs(s.trace, Displaced(s, k), m, front);
  }

  lemma UserCommitTidy(cfg: Config, s: State, k: string, front: seq<Message>, m: Message, back: seq<Message>, limit: nat,
                       n: State)
    requires Tidy(cfg, s, limit) && Cut(cfg, s, k, front, m, back)
    requires n.slots == s.slots[k := m] && n.vecs == s.vecs[k := back]
    requires forall x :: Live(n.trace, x) <==> Live(s.trace, x) && Destroy(x) !in Displaced(s, k) && x !in front
    ensures Tidy(cfg, n, limit)
  {
    CutFacts(cfg, s, k, front, m, back, limit);
  }

  lemma UserCommitAccounted(cfg: Config, s: State, k: string, front: seq<Message>, m: Message, back: seq<Message>, n: State)
    requires Accounted(cfg, s, {}) && Cut(cfg, s, k, front, m, back)
    requires n.slots == s.slots[k := m] && n.vecs == s.vecs[k := back]
    requires forall x :: Live(n.trace, x) ==> Live(s.trace, x) && Destroy(x) !in Displaced(s, k) && x !in front
    ensures Accounted(cfg, n, {})
  {
    forall x | Live(n.trace, x) ensures InSlot(cfg, n, x) || Holds(cfg, n, x) {
      assert Live(s.trace, x);
    }
  }

  lemma UserCommitKeeps(cfg: Config, s: State, m: Message, limit: nat)
    requires Good(cfg, s, limit, {}) && Holds(cfg, s, m)
    ensures Good(cfg, UserCommit(cfg, s, m), limit, {})
  {
    var k := KeyOf(cfg, m);
    var n := UserCommit(cfg, s, m);
    var front, back := UserCommitEffect(cfg, s, m);
    UserCommitTrace(cfg, s, k, front, m, back, limit);
    UserCommitTidy(cfg, s, k, front, m, back, limit, n);
    UserCommitAccounted(cfg, s, k, front, m, back, n);
  }

  // ---- Every event keeps the invariant ----

  lemma FlushKeeps(cfg: Config, s: State, force: bool, now: int, order: seq<string>)
    requires Good(cfg, s, s.polls, {}) && Enumerates(order, s.slots.Keys)
    ensures
      var n := Flush(cfg, s, force, now, order);
      && Good(cfg, n, n.polls, {})
      && n.phase == s.phase && n.polls == s.polls && n.vecs == s.vecs
      && (s.slots == map[] ==> n.slots == map[])
      && (!cfg.autoCommit && Fires(cfg, s, force, now) ==> n.slots == map[])
      && (forall m :: Poll(m) in n.trace ==> Poll(m) in s.trace)
  {
    FlushSlotsKeep(cfg, s, order, s.polls, {});
    FlushSlotsFrame(s, order);
    assert s.slots == map[] ==> s.slots.Keys == {};
    assert FlushSlots(s, order).slots.Keys == {};
  }

  /** An act on the message in hand leaves what the maps hold alone. */
  lemma HandActKeeps(cfg: Config, s: State, n: State, limit: nat, hand: set<Message>, newLimit: nat, newHand: set<Message>)
    requires Tidy(cfg, s, limit) && Accounted(cfg, s, hand) && limit <= newLimit
    requires n.slots == s.slots && n.vecs == s.vecs
    requires forall x: Message :: x.serial < limit && Live(s.trace, x) ==> Live(n.trace, x)
    requires forall x :: Live(n.trace, x) && x !in newHand ==> Live(s.trace, x) && x !in hand
    ensures Tidy(cfg, n, newLimit) && Accounted(cfg, n, newHand)
  {
    forall x | Live(n.trace, x) && x !in newHand ensures InSlot(cfg, n, x) || Holds(cfg, n, x) {
      assert Live(s.trace, x);
    }
  }

  lemma DestroyedWerePolled(t: seq<Act>)
    requires Safe(t)
    ensures forall m :: Destroy(m) in t ==> Poll(m) in t
  {
    forall m | Destroy(m) in t ensures Poll(m) in t {
      var j :| 0 <= j < |t| && t[j] == Destroy(m);
      assert SafeNext(t[..j], t[j]);
    }
  }

  lemma PolledTrace(t: seq<Act>, m: Message)
    requires Safe(t) && Poll(m) !in t
    ensures Safe(t + [Poll(m)])
    ensures forall x :: Live(t + [Poll(m)], x) <==> Live(t, x) || x == m
  {
    DestroyedWerePolled(t);
    SafeSnoc(t, Poll(m));
  }

  lemma PolledKeeps(cfg: Config, s: State, m: Message)
    requires Inv(cfg, s) && Enabled(cfg, s, Polled(m))
    ensures Inv(cfg, Next(cfg, s, Polled(m)))
  {
    PolledTrace(s.trace, m);
    HandActKeeps(cfg, s, Next(cfg, s, Polled(m)), s.polls, {}, s.polls, {m});
  }

  lemma DeliveredKeeps(cfg: Config, s: State)
    requires Inv(cfg, s) && Enabled(cfg, s, Delivered)
    ensures Inv(cfg, Next(cfg, s, Delivered))
  {
    var n := Next(cfg, s, Delivered);
    SafeSnoc(s.trace, Deliver(s.phase.m));
    assert forall x :: Live(n.trace, x) <==> Live(s.trace, x);
    HandActKeeps(cfg, s, n, Limit(s), HandOf(cfg, s), Limit(n), HandOf(cfg, n));
  }

  /** The message in hand is destroyed. */
  lemma DestroyHand(cfg: Config, s: State, n: State, m: Message, limit: nat, newLimit: nat)
    requires Good(cfg, s, limit, {m}) && Live(s.trace, m) && limit <= m.serial && limit <= newLimit
    requires n.slots == s.slots && n.vecs == s.vecs && n.trace == s.trace + [Destroy(m)]
    ensures Good(cfg, n, newLimit, {})
    ensures forall x :: Poll(x) in n.trace <==> Poll(x) in s.trace
  {
    SafeSnoc(s.trace, Destroy(m));
    assert forall x :: Live(n.trace, x) <==> Live(s.trace, x) && x != m;
    HandActKeeps(cfg, s, n, limit, {m}, newLimit, {});
  }

  /** In the pull build and auto-commit mode */
  lemma AutoKeepKeeps(cfg: Config, s: State)
    requires Inv(cfg, s) && Enabled(cfg, s, Keep) && cfg.autoCommit
    ensures Inv(cfg, Next(cfg, s, Keep))
  {
    DestroyHand(cfg, s, Next(cfg, s, Keep), s.phase.m, s.phase.m.serial, s.polls);
  }

  lemma KeepKeeps(cfg: Config, s: State)
    requires Inv(cfg, s) && Enabled(cfg, s, Keep)
    ensures Inv(cfg, Next(cfg, s, Keep))
  {
    var m := s.phase.m;
    if cfg.autoCommit {
      AutoKeepKeeps(cfg, s);
    } else if cfg.userCommit {
      AddWaitDestroyKeeps(cfg, s, m);
    } else {
      AddWaitCommitKeeps(cfg, s, m);
    }
  }

  /** A message that fails `checkMsg` */
  lemma DropKeeps(cfg: Config, s: State)
    requires Inv(cfg, s) && Enabled(cfg, s, Drop)
    ensures Inv(cfg, Next(cfg, s, Drop))
  {
    DestroyHand(cfg, s, Next(cfg, s, Drop), s.phase.m, s.phase.m.serial, s.polls);
  }

  /** A message that was delivered, in auto-commit mode */
  lemma AutoReturnKeeps(cfg: Config, s: State)
    requires Inv(cfg, s) && Enabled(cfg, s, Return) && cfg.autoCommit
    ensures Inv(cfg, Next(cfg, s, Return))
  {
    assert Good(cfg, s, 0, {s.phase.m});
    DestroyHand(cfg, s, Next(cfg, s, Return), s.phase.m, 0, s.polls);
  }

  lemma ReturnKeeps(cfg: Config, s: State)
    requires Inv(cfg, s) && Enabled(cfg, s, Return)
    ensures Inv(cfg, Next(cfg, s, Return))
  {
    if cfg.autoCommit {
      AutoReturnKeeps(cfg, s);
    } else {
      assert s.trace + [] == s.trace;
    }
  }

  lemma RevokedKeeps(cfg: Config, s: State, now: int, order: seq<string>)
    requires Inv(cfg, s) && Enabled(cfg, s, Revoked(now, order))
    ensures Inv(cfg, Next(cfg, s, Revoked(now, order)))
  {
    if s.phase.Closing? {
      FlushNothing(s, order);
    } else {
      FlushKeeps(cfg, s, true, now, order);
    }
  }

  lemma TimedFlushKeeps(cfg: Config, s: State, now: int, order: seq<string>)
    requires Inv(cfg, s) && Enabled(cfg, s, TimedFlush(now, order))
    ensures Inv(cfg, Next(cfg, s, TimedFlush(now, order)))
  {
    if s.phase.Closing? {
      FlushNothing(s, order);
    } else {
      FlushKeeps(cfg, s, false, now, order);
    }
  }

  lemma ForcedFlushKeeps(cfg: Config, s: State, now: int, order: seq<string>)
    requires Inv(cfg, s) && Enabled(cfg, s, ForcedFlush(now, order))
    ensures Inv(cfg, Next(cfg, s, ForcedFlush(now, order)))
  {
    FlushKeeps(cfg, s, true, now, order);
  }

  lemma ClearKeeps(cfg: Config, s: State, order: seq<string>)
    requires Inv(cfg, s) && Enabled(cfg, s, Clear(order))
    ensures Inv(cfg, Next(cfg, s, Clear(order)))
  {
    ReleaseVecsKeep(cfg, s, order, s.polls);
    var r := if cfg.userCommit then ReleaseVecs(s, order) else s;
    assert r.vecs.Keys == {};
    assert forall m :: !InSlot(cfg, r, m) && !Holds(cfg, r, m);
  }

  lemma NextKeeps(cfg: Config, s: State, e: Event)
    requires Inv(cfg, s) && Enabled(cfg, s, e)
    ensures Inv(cfg, Next(cfg, s, e))
  {
    match e
    case Revoked(now, order) => RevokedKeeps(cfg, s, now, order);
    case PolledNothing =>
    case Polled(m) => PolledKeeps(cfg, s, m);
    case Drop => DropKeeps(cfg, s);
    case Keep => KeepKeeps(cfg, s);
    case Delivered => DeliveredKeeps(cfg, s);
    case CommitOffset(rd) => if cfg.userCommit { UserCommitStays(cfg, s, rd); }
    case Return => ReturnKeeps(cfg, s);
    case TimedFlush(now, order) => TimedFlushKeeps(cfg, s, now, order);
    case Exit =>
    case ForcedFlush(now, order) => ForcedFlushKeeps(cfg, s, now, order);
    case Clear(order) => ClearKeeps(cfg, s, order);
  }

  lemma UserCommitStays(cfg: Config, s: State, m: Message)
    requires Inv(cfg, s) && CanCommit(cfg, s) && cfg.userCommit && Holds(cfg, s, m)
    ensures Inv(cfg, UserCommit(cfg, s, m))
  {
    UserCommitKeeps(cfg, s, m, s.polls);
    UserCommitPolls(cfg, s, m);
  }

  lemma UserCommitPolls(cfg: Config, s: State, m: Message)
    requires Holds(cfg, s, m)
    ensures forall x :: Poll(x) in UserCommit(cfg, s, m).trace <==> Poll(x) in s.trace
  {
    var front, back := UserCommitEffect(cfg, s, m);
    DestroyAllActs(front);
  }

  lemma {:induction false} FlushNothing(s: State, order: seq<string>)
    requires s.slots == map[]
    ensures FlushSlots(s, order) == s
  {
    if order != [] {
      FlushNothing(s, order[..|order| - 1]);
    }
  }

  lemma {:induction false} RunKeeps(cfg: Config, run: Run)
    requires Legal(cfg, run)
    ensures Inv(cfg, Final(cfg, run))
  {
    if run.Then? {
      RunKeeps(cfg, run.before);
      NextKeeps(cfg, Final(cfg, run.before), run.event);
    }
  }

  // ---- The theorems ----

  lemma SomePlace(cfg: Config, s: State, m: Message) returns (p: Place)
    requires Inv(cfg, s) && Poll(m) in s.trace
    ensures At(cfg, s, m, p)
  {
    var k := KeyOf(cfg, m);
    if Destroy(m) in s.trace {
      p := Gone;
    } else {
      assert Live(s.trace, m);
      if InHand(cfg, s, m) {
        p := TheHand;
      } else if InSlot(cfg, s, m) {
        p := Slot(k);
      } else {
        var i :| 0 <= i < |s.vecs[k]| && s.vecs[k][i] == m;
        p := Cell(k, i);
      }
    }
  }

  lemma OnePlace(cfg: Config, s: State, m: Message, p: Place, q: Place)
    requires Inv(cfg, s) && At(cfg, s, m, p) && At(cfg, s, m, q)
    ensures p == q
  {
  }

  /** At every step boundary a polled message is either destroyed or owned by exactly one
      place, whatever function names the slots and whichever commit mode is on. */
  lemma OwnedExactlyOnce(cfg: Config, run: Run, m: Message)
    requires Legal(cfg, run) && Poll(m) in Final(cfg, run).trace
    ensures InExactlyOnePlace(cfg, Final(cfg, run), m)
  {
    RunKeeps(cfg, run);
    var s := Final(cfg, run);
    var p := SomePlace(cfg, s, m);
    forall q | At(cfg, s, m, q) ensures q == p {
      OnePlace(cfg, s, m, p, q);
    }
  }

  /** No step of any run touches a message after it was destroyed, destroys one twice, or
      touches one that was never polled. */
  lemma NeverTouchedAfterDestroy(cfg: Config, run: Run)
    requires Legal(cfg, run)
    ensures Safe(Final(cfg, run).trace)
  {
    RunKeeps(cfg, run);
  }

  lemma {:induction false} AtMostOnce(t: seq<Act>, a: Act)
    requires Safe(t) && (a.Destroy? || a.Poll?)
    ensures multiset(t)[a] <= 1
  {
    if t != [] {
      var n := |t| - 1;
      assert t == t[..n] + [t[n]];
      forall j | 0 <= j < n ensures SafeNext(t[..n][..j], t[..n][j]) {
        assert t[..n][..j] == t[..j];
      }
      AtMostOnce(t[..n], a);
      assert SafeNext(t[..n], t[n]);
      if t[n] == a { assert a !in multiset(t[..n]); }
    }
  }

  /** After `stop`, every message ever polled has been destroyed exactly once. */
  lemma StopReleasesExactlyOnce(cfg: Config, run: Run, m: Message)
    requires Legal(cfg, run) && Final(cfg, run).phase.Closing? && Poll(m) in Final(cfg, run).trace
    ensures multiset(Final(cfg, run).trace)[Destroy(m)] == 1
  {
    RunKeeps(cfg, run);
    var t := Final(cfg, run).trace;
    assert !Live(t, m);
    AtMostOnce(t, Destroy(m));
    assert Destroy(m) in multiset(t);
  }
}
