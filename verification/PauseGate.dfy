/** Pausing and resuming partitions while rebalances go on: the set of partitions ever
    assigned, the "has assigned" flag and the start flag, and the threads that use them, one
    access at a time. */
module PauseGate {

  datatype Partition = Partition(topic: string, id: int)

  // ---- The set of partitions by topic ----

  type Data = map<string, set<int>>

  predicate Has(data: Data, p: Partition) {
    p.topic in data && p.id in data[p.topic]
  }

  function InsertOne(data: Data, p: Partition): Data {
    data[p.topic := (if p.topic in data then data[p.topic] else {}) + {p.id}]
  }

  function InsertAll(data: Data, lst: seq<Partition>): Data {
    if lst == [] then data else InsertOne(InsertAll(data, lst[..|lst| - 1]), lst[|lst| - 1])
  }

  /** `init` with a list adds exactly that list: earlier assignments stay. */
  lemma {:induction false} InsertAllMeans(data: Data, lst: seq<Partition>)
    ensures forall p :: Has(InsertAll(data, lst), p) <==> Has(data, p) || p in lst
  {
    if lst != [] {
      var n := |lst| - 1;
      InsertAllMeans(data, lst[..n]);
      assert lst == lst[..n] + [lst[n]];
    }
  }

  lemma EmptyOrNot(s: set<int>)
    ensures s == {} || exists a :: a in s
  {
    if !exists a :: a in s {
      assert s == {};
    }
  }

  lemma {:induction false} LeastExists(s: set<int>)
    requires s != {}
    ensures exists m :: m in s && forall x :: x in s ==> m <= x
  {
    EmptyOrNot(s);
    var a :| a in s;
    var rest := s - {a};
    assert s == rest + {a};
    if rest == {} {
      assert forall x :: x in s ==> a <= x;
    } else {
      LeastExists(rest);
      var m :| m in rest && forall x :: x in rest ==> m <= x;
      var least := if a < m then a else m;
      forall x | x in s ensures least <= x {
        assert x == a || x in rest;
      }
      assert least in s;
    }
  }

  ghost function Least(s: set<int>): (m: int)
    requires s != {}
    ensures m in s && forall x :: x in s ==> m <= x
  {
    LeastExists(s);
    var m :| m in s && forall x :: x in s ==> m <= x;
    m
  }

  ghost function Ascending(s: set<int>): seq<int> {
    if s == {} then [] else [Least(s)] + Ascending(s - {Least(s)})
  }

  lemma {:induction false} AscendingMeans(s: set<int>)
    ensures forall x :: x in Ascending(s) <==> x in s
    ensures forall i, j :: 0 <= i < j < |Ascending(s)| ==> Ascending(s)[i] < Ascending(s)[j]
  {
    if s != {} {
      var m := Least(s);
      var rest := Ascending(s - {m});
      AscendingMeans(s - {m});
      assert Ascending(s) == [m] + rest;
      forall i | 0 <= i < |rest| ensures m < rest[i] {
        assert rest[i] in rest;
        assert rest[i] in s - {m};
      }
    }
  }

  ghost function Row(topic: string, ids: seq<int>): seq<Partition> {
    seq(|ids|, i requires 0 <= i < |ids| => Partition(topic, ids[i]))
  }

  /** What `findTopics` returns: for each named topic in turn, its known partitions in
      ascending order. */
  ghost function Listing(data: Data, topics: seq<string>): seq<Partition> {
    if topics == [] then []
    else
      var t := topics[|topics| - 1];
      Listing(data, topics[..|topics| - 1]) + if t in data then Row(t, Ascending(data[t])) else []
  }

  lemma RowMeans(topic: string, s: set<int>, p: Partition)
    ensures p in Row(topic, Ascending(s)) <==> p.topic == topic && p.id in s
  {
    AscendingMeans(s);
    var ids := Ascending(s);
    if p.topic == topic && p.id in s {
      var i :| 0 <= i < |ids| && ids[i] == p.id;
      assert Row(topic, ids)[i] == p;
    }
  }

  lemma {:induction false} ListingMeans(data: Data, topics: seq<string>, p: Partition)
    ensures p in Listing(data, topics) <==> p.topic in topics && Has(data, p)
  {
    if topics != [] {
      var n := |topics| - 1;
      ListingMeans(data, topics[..n], p);
      assert topics == topics[..n] + [topics[n]];
      if topics[n] in data {
        RowMeans(topics[n], data[topics[n]], p);
      }
    }
  }

  /** Naming a topic once lists its partitions once. */
  lemma {:induction false} ListingDistinct(data: Data, topics: seq<string>)
    requires forall i, j :: 0 <= i < j < |topics| ==> topics[i] != topics[j]
    ensures forall i, j :: 0 <= i < j < |Listing(data, topics)| ==> Listing(data, topics)[i] != Listing(data, topics)[j]
  {
    if topics != [] {
      var n := |topics| - 1;
      var t, before := topics[n], Listing(data, topics[..n]);
      ListingDistinct(data, topics[..n]);
      if t in data {
        var row := Row(t, Ascending(data[t]));
        AscendingMeans(data[t]);
        forall i | 0 <= i < |before| ensures before[i] !in row {
          assert before[i] in before;
          ListingMeans(data, topics[..n], before[i]);
          RowMeans(t, data[t], before[i]);
        }
        assert Listing(data, topics) == before + row;
      }
    }
  }

  /** The place of a topic in the list of topics */
  function IndexOf(topics: seq<string>, t: string): (i: nat)
    requires t in topics
    ensures i < |topics| && topics[i] == t && t !in topics[..i]
  {
    if topics[0] == t then 0 else 1 + IndexOf(topics[1..], t)
  }

  lemma IndexOfIs(topics: seq<string>, t: string, n: nat)
    requires n < |topics| && topics[n] == t && t !in topics[..n]
    ensures IndexOf(topics, t) == n
  {
    var i := IndexOf(topics, t);
    assert forall j :: 0 <= j < n ==> topics[..n][j] == topics[j];
    assert forall j :: 0 <= j < i ==> topics[..i][j] == topics[j];
  }

  /** p comes before q: its topic was named earlier, or it is the same and its number smaller. */
  ghost predicate Before(topics: seq<string>, p: Partition, q: Partition) {
    && p.topic in topics && q.topic in topics
    && (IndexOf(topics, p.topic) < IndexOf(topics, q.topic) || (p.topic == q.topic && p.id < q.id))
  }

  lemma BeforeMore(topics: seq<string>, t: string, p: Partition, q: Partition)
    requires Before(topics, p, q)
    ensures Before(topics + [t], p, q)
  {
    var u := topics + [t];
    var i, j := IndexOf(topics, p.topic), IndexOf(topics, q.topic);
    assert u[..i] == topics[..i] && u[..j] == topics[..j];
    IndexOfIs(u, p.topic, i);
    IndexOfIs(u, q.topic, j);
  }

  lemma BeforeNew(topics: seq<string>, p: Partition, q: Partition)
    requires p.topic in topics && q.topic !in topics
    ensures Before(topics + [q.topic], p, q)
  {
    var u := topics + [q.topic];
    var i := IndexOf(topics, p.topic);
    assert u[..i] == topics[..i] && u[..|topics|] == topics;
    IndexOfIs(u, p.topic, i);
    IndexOfIs(u, q.topic, |topics|);
  }

  /** The list follows the order in which the topics are named and, within a topic, the
      partition numbers. */
  lemma {:induction false} ListingOrdered(data: Data, topics: seq<string>, i: nat, j: nat)
    requires forall i, j :: 0 <= i < j < |topics| ==> topics[i] != topics[j]
    requires i < j < |Listing(data, topics)|
    ensures Before(topics, Listing(data, topics)[i], Listing(data, topics)[j])
  {
    var n := |topics| - 1;
    var ts, t := topics[..n], topics[n];
    var before := Listing(data, ts);
    assert topics == ts + [t];
    var p, q := Listing(data, topics)[i], Listing(data, topics)[j];
    if j < |before| {
      ListingOrdered(data, ts, i, j);
      BeforeMore(ts, t, p, q);
    } else {
      var ids := Ascending(data[t]);
      AscendingMeans(data[t]);
      assert q == Row(t, ids)[j - |before|];
      if i < |before| {
        assert p in before;
        ListingMeans(data, ts, p);
        BeforeNew(ts, p, q);
      } else {
        assert p == Row(t, ids)[i - |before|];
      }
    }
  }

  class TopicPartitionSet {
    var data: Data

    constructor ()
      ensures data == map[]
    {
      data := map[];
    }

    /** `init` with a list: the union with what is there */
    method Add(lst: seq<Partition>)
      modifies this
      ensures data == InsertAll(old(data), lst)
    {
      for i := 0 to |lst|
        invariant data == InsertAll(old(data), lst[..i])
      {
        assert lst[..i + 1][..i] == lst[..i];
        var p := lst[i];
        if p.topic !in data {
          data := data[p.topic := {}];
        }
        data := data[p.topic := data[p.topic] + {p.id}];
      }
      assert lst[..|lst|] == lst;
    }

    /** `init` without a list */
    method Clear()
      modifies this
      ensures data == map[]
    {
      data := map[];
    }

    method FindTopics(topics: seq<string>) returns (lst: seq<Partition>)
      ensures lst == Listing(data, topics)
    {
      lst := [];
      for i := 0 to |topics|
        invariant lst == Listing(data, topics[..i])
      {
        assert topics[..i + 1][..i] == topics[..i];
        var topic := topics[i];
        if topic in data {
          var row := OneTopic(topic, data[topic]);
          lst := lst + row;
        }
      }
      assert topics[..|topics|] == topics;
    }

    /** The inner loop, over an ordered set */
    static method OneTopic(topic: string, ids: set<int>) returns (row: seq<Partition>)
      ensures row == Row(topic, Ascending(ids))
    {
      row := [];
      var rest := ids;
      ghost var done: seq<int> := [];
      while rest != {}
        invariant row == Row(topic, done) && done + Ascending(rest) == Ascending(ids)
        decreases |rest|
      {
        LeastExists(rest);
        var m :| m in rest && forall x :: x in rest ==> m <= x;
        assert m == Least(rest);
        assert done + Ascending(rest) == (done + [m]) + Ascending(rest - {m});
        row := row + [Partition(topic, m)];
        done := done + [m];
        rest := rest - {m};
      }
      assert done == Ascending(ids);
    }
  }

  // ---- The threads ----

  /** Where the polling thread is inside the rebalance callback */
  datatype Rebalance = Idle | Assigned(lst: seq<Partition>) | Stored | Unassigned

  /** Where the thread that pauses or resumes is */
  datatype Client = Away | PastStart(topics: seq<string>) | PastBoth(topics: seq<string>) | Listed(lst: seq<Partition>)

  datatype State = State(
    startFlag: bool,
    hasAssigned: bool,
    cleared: bool,
    data: Data,
    rebalance: Rebalance,
    client: Client)

  const INIT := State(true, false, false, map[], Idle, Away)

  datatype Event =
    | Assign(lst: seq<Partition>)
    | Store
    | MarkAssigned
    | Unassign
    | MarkUnassigned
    | CheckStart(topics: seq<string>)
    | CheckAssigned
    | Find
    | Leave
    | StopFlag
    | StopClear

  /** Assignments alternate with revocations: a new one comes only while none is marked. */
  predicate Enabled(s: State, e: Event) {
    match e
    case Assign(lst) => s.rebalance.Idle? && !s.hasAssigned
    case Store => s.rebalance.Assigned?
    case MarkAssigned => s.rebalance.Stored?
    case Unassign => s.rebalance.Idle?
    case MarkUnassigned => s.rebalance.Unassigned?
    case CheckStart(topics) => s.client.Away?
    case CheckAssigned => s.client.PastStart?
    case Find => s.client.PastBoth?
    case Leave => s.client.Listed?
    case StopFlag => s.startFlag
    case StopClear => !s.startFlag && !s.cleared
  }

  ghost function Next(s: State, e: Event): State
    requires Enabled(s, e)
  {
    match e
    case Assign(lst) => s.(rebalance := Assigned(lst))
    case Store => s.(data := InsertAll(s.data, s.rebalance.lst), rebalance := Stored)
    case MarkAssigned => s.(hasAssigned := true, rebalance := Idle)
    case Unassign => s.(rebalance := Unassigned)
    case MarkUnassigned => s.(hasAssigned := false, rebalance := Idle)
    case CheckStart(topics) => s.(client := if s.startFlag then PastStart(topics) else Away)
    case CheckAssigned => s.(client := if s.hasAssigned then PastBoth(s.client.topics) else Away)
    case Find => s.(client := Listed(Listing(s.data, s.client.topics)))
    case Leave => s.(client := Away)
    case StopFlag => s.(startFlag := false)
    case StopClear => s.(data := map[], cleared := true)
  }

  datatype Run = Start | Then(before: Run, event: Event)

  ghost predicate Legal(run: Run)
    decreases run, 0
  {
    match run
    case Start => true
    case Then(before, e) => Legal(before) && Enabled(Final(before), e)
  }

  ghost function Final(run: Run): State
    requires Legal(run)
    decreases run, 1
  {
    match run
    case Start => INIT
    case Then(before, e) => Next(Final(before), e)
  }

  // ---- What the events say ----

  /** The list of the last assignment */
  function LastAssign(run: Run): seq<Partition> {
    match run
    case Start => []
    case Then(before, Assign(lst)) => lst
    case Then(before, e) => LastAssign(before)
  }

  /** An assignment is in force. */
  predicate Holding(run: Run) {
    match run
    case Start => false
    case Then(before, Assign(lst)) => true
    case Then(before, Unassign) => false
    case Then(before, e) => Holding(before)
  }

  /** The partitions assigned now */
  predicate Current(run: Run, p: Partition) {
    Holding(run) && p in LastAssign(run)
  }

  /** The assignments stored since the set was last cleared */
  function StoredLists(run: Run): seq<seq<Partition>> {
    match run
    case Start => []
    case Then(before, Store) => StoredLists(before) + [LastAssign(before)]
    case Then(before, StopClear) => []
    case Then(before, e) => StoredLists(before)
  }

  ghost predicate InSome(lists: seq<seq<Partition>>, p: Partition) {
    exists i :: 0 <= i < |lists| && p in lists[i]
  }

  /** The topics of the last call of pause or resume */
  function Asked(run: Run): seq<string> {
    match run
    case Start => []
    case Then(before, CheckStart(topics)) => topics
    case Then(before, e) => Asked(before)
  }

  predicate Started(run: Run) {
    match run
    case Start => true
    case Then(before, StopFlag) => false
    case Then(before, e) => Started(before)
  }

  predicate MarkedAssigned(run: Run) {
    match run
    case Start => false
    case Then(before, MarkAssigned) => true
    case Then(before, MarkUnassigned) => false
    case Then(before, e) => MarkedAssigned(before)
  }

  /** The flags, the pending assignment and the topics asked for are what the events say. */
  lemma {:induction false} StateIsHistory(run: Run)
    requires Legal(run)
    ensures
      var s := Final(run);
      && s.startFlag == Started(run) && s.hasAssigned == MarkedAssigned(run)
      && (s.rebalance.Assigned? ==> s.rebalance.lst == LastAssign(run) && Holding(run))
      && (s.client.PastStart? || s.client.PastBoth? ==> s.client.topics == Asked(run))
      && (s.hasAssigned ==> !s.rebalance.Assigned? && !s.rebalance.Stored?)
      && (s.startFlag ==> !s.cleared)
  {
    if run.Then? {
      StateIsHistory(run.before);
    }
  }

  /** The two gates: a call goes on exactly if `stop` has not lowered the start flag, and then
      exactly if the last mark was that partitions are assigned. */
  lemma GatesIff(run: Run, e: Event)
    requires Legal(Then(run, e))
    ensures e.CheckStart? ==> Final(Then(run, e)).client == if Started(run) then PastStart(e.topics) else Away
    ensures e.CheckAssigned? ==> Final(Then(run, e)).client == if MarkedAssigned(run) then PastBoth(Asked(run)) else Away
  {
    StateIsHistory(run);
  }

  lemma {:induction false} DataIsStored(run: Run, p: Partition)
    requires Legal(run)
    ensures Has(Final(run).data, p) <==> InSome(StoredLists(run), p)
  {
    if run.Then? {
      DataIsStored(run.before, p);
      var s := Final(run.before);
      if run.event.Store? {
        StateIsHistory(run.before);
        InsertAllMeans(s.data, s.rebalance.lst);
        var lists := StoredLists(run);
        assert lists[|lists| - 1] == s.rebalance.lst;
        assert forall i :: 0 <= i < |lists| - 1 ==> lists[i] == StoredLists(run.before)[i];
      }
    }
  }

  /** What a call gets: exactly the partitions of its topics from the assignments stored since
      the last clear, revoked ones included, in the order the topics were named and then by
      number. */
  lemma FoundIff(run: Run, p: Partition)
    requires Legal(Then(run, Find))
    ensures
      var c := Final(Then(run, Find)).client;
      && c.Listed? && (p in c.lst <==> p.topic in Asked(run) && InSome(StoredLists(run), p))
      && ((forall i, j :: 0 <= i < j < |Asked(run)| ==> Asked(run)[i] != Asked(run)[j]) ==>
            forall i, j :: 0 <= i < j < |c.lst| ==> Before(Asked(run), c.lst[i], c.lst[j]))
  {
    StateIsHistory(run);
    DataIsStored(run, p);
    var data, topics := Final(run).data, Asked(run);
    ListingMeans(data, topics, p);
    if forall i, j :: 0 <= i < j < |topics| ==> topics[i] != topics[j] {
      forall i, j | 0 <= i < j < |Listing(data, topics)|
        ensures Before(topics, Listing(data, topics)[i], Listing(data, topics)[j])
      {
        ListingOrdered(data, topics, i, j);
      }
    }
  }

  /** A call that makes its list now gets every assigned partition of its topics. */
  ghost predicate GetsAll(run: Run)
    requires Legal(Then(run, Find))
  {
    var c := Final(Then(run, Find)).client;
    c.Listed? && forall p :: Current(run, p) && p.topic in Asked(run) ==> p in c.lst
  }

  // ---- When it does ----

  /** No assignment is in force, or it was stored since the set was last cleared. */
  predicate Settled(run: Run) {
    match run
    case Start => true
    case Then(before, Assign(lst)) => false
    case Then(before, Store) => true
    case Then(before, Unassign) => true
    case Then(before, StopClear) => !Holding(before)
    case Then(before, e) => Settled(before)
  }

  lemma {:induction false} SettledMeans(run: Run)
    requires Legal(run)
    ensures
      && (!Holding(run) ==> Settled(run))
      && (Settled(run) && Holding(run) ==> LastAssign(run) in StoredLists(run))
      && ((Final(run).hasAssigned || Final(run).rebalance.Stored?) && !Final(run).cleared ==> Settled(run))
  {
    if run.Then? {
      SettledMeans(run.before);
      StateIsHistory(run.before);
    }
  }

  /** Wherever a call makes its list, it gets every assigned partition of its topics if and
      only if the assignment in force was stored since the set was last cleared, or what it
      has of the topics comes from earlier assignments stored since then. */
  lemma CompleteIff(run: Run)
    requires Legal(Then(run, Find))
    ensures GetsAll(run) <==>
            Settled(run) || forall p :: Current(run, p) && p.topic in Asked(run) ==> InSome(StoredLists(run), p)
  {
    forall p
      ensures p in Final(Then(run, Find)).client.lst <==> p.topic in Asked(run) && InSome(StoredLists(run), p)
    {
      FoundIff(run, p);
    }
    FoundIff(run, Partition("", 0));
    SettledMeans(run);
  }

  /** The same events in the same order, but for the partitions that are assigned */
  ghost predicate SameSchedule(a: Run, b: Run) {
    match a
    case Start => b.Start?
    case Then(before, e) =>
      b.Then? && (b.event == e || (b.event.Assign? && e.Assign?)) && SameSchedule(before, b.before)
  }

  lemma {:induction false} SettledBySchedule(a: Run, b: Run)
    requires SameSchedule(a, b)
    ensures Settled(a) == Settled(b) && Holding(a) == Holding(b) && Asked(a) == Asked(b)
  {
    if a.Then? {
      SettledBySchedule(a.before, b.before);
    }
  }

  /** The run in which every assignment is empty but the last one, if `last`, which is `p` */
  function OnlyLast(run: Run, p: Partition, last: bool): Run {
    match run
    case Start => Start
    case Then(before, Assign(lst)) => Then(OnlyLast(before, p, false), Assign(if last then [p] else []))
    case Then(before, e) => Then(OnlyLast(before, p, last), e)
  }

  /** The two runs agree on everything but the partitions. */
  ghost predicate SameControl(s: State, t: State) {
    && s.startFlag == t.startFlag && s.hasAssigned == t.hasAssigned && s.cleared == t.cleared
    && (s.rebalance.Idle? <==> t.rebalance.Idle?) && (s.rebalance.Assigned? <==> t.rebalance.Assigned?)
    && (s.rebalance.Stored? <==> t.rebalance.Stored?)
    && (s.client.Away? <==> t.client.Away?) && (s.client.PastStart? <==> t.client.PastStart?)
    && (s.client.PastBoth? <==> t.client.PastBoth?)
  }

  lemma NextSameControl(s: State, t: State, e: Event, f: Event)
    requires SameControl(s, t) && Enabled(s, e) && (f == e || (e.Assign? && f.Assign?))
    ensures Enabled(t, f) && SameControl(Next(s, e), Next(t, f))
  {
  }

  lemma {:induction false} OnlyLastLegal(run: Run, p: Partition, last: bool)
    requires Legal(run)
    ensures Legal(OnlyLast(run, p, last)) && SameSchedule(run, OnlyLast(run, p, last))
    ensures SameControl(Final(run), Final(OnlyLast(run, p, last)))
  {
    if run.Then? {
      var l := last && !run.event.Assign?;
      OnlyLastLegal(run.before, p, l);
      var o := OnlyLast(run, p, last);
      NextSameControl(Final(run.before), Final(OnlyLast(run.before, p, l)), run.event, o.event);
    }
  }

  lemma {:induction false} NothingStored(run: Run, p: Partition, q: Partition)
    ensures !InSome(StoredLists(OnlyLast(run, p, false)), q) && LastAssign(OnlyLast(run, p, false)) == []
  {
    if run.Then? {
      NothingStored(run.before, p, q);
    }
  }

  lemma {:induction false} LastIsMissing(run: Run, p: Partition)
    requires !Settled(run)
    ensures
      var r := OnlyLast(run, p, true);
      Holding(run) ==> LastAssign(r) == [p] && !InSome(StoredLists(r), p)
    ensures Holding(run)
  {
    var e := run.event;
    if e.Assign? {
      NothingStored(run.before, p, p);
    } else if e.StopClear? {
      HoldingLast(run.before, p);
    } else {
      LastIsMissing(run.before, p);
    }
  }

  lemma {:induction false} HoldingLast(run: Run, p: Partition)
    requires Holding(run)
    ensures LastAssign(OnlyLast(run, p, true)) == [p]
  {
    if !run.event.Assign? {
      HoldingLast(run.before, p);
    }
  }

  /** Which schedules are safe: the call that makes its list at the end of a schedule gets
      every assigned partition of its topics, whatever was assigned on the way, if and only if
      the assignment in force was stored since the set was last cleared (or it names no
      topic). */
  lemma SafeScheduleIff(run: Run)
    requires Legal(Then(run, Find))
    ensures (forall r :: SameSchedule(run, r) && Legal(Then(r, Find)) ==> GetsAll(r)) <==> Settled(run) || Asked(run) == []
  {
    if Settled(run) || Asked(run) == [] {
      forall r | SameSchedule(run, r) && Legal(Then(r, Find)) ensures GetsAll(r) {
        SettledBySchedule(run, r);
        CompleteIff(r);
      }
    } else {
      var p := Partition(Asked(run)[0], 0);
      var r := OnlyLast(run, p, true);
      OnlyLastLegal(run, p, true);
      LastIsMissing(run, p);
      SettledBySchedule(run, r);
      assert Legal(Then(r, Find));
      FoundIff(r, p);
      assert Current(r, p) && !GetsAll(r);
    }
  }

  // ---- What the two gates give ----

  /** `stop` has not cleared the set since pause looked at the start flag. */
  predicate NoClearSinceStart(run: Run) {
    match run
    case Start => true
    case Then(before, CheckStart(topics)) => true
    case Then(before, StopClear) => false
    case Then(before, e) => NoClearSinceStart(before)
  }

  /** No partition was assigned since pause looked at the "has assigned" flag. */
  predicate NoAssignSinceAssigned(run: Run) {
    match run
    case Start => true
    case Then(before, CheckAssigned) => true
    case Then(before, Assign(lst)) => false
    case Then(before, e) => NoAssignSinceAssigned(before)
  }

  lemma {:induction false} GatesSettle(run: Run)
    requires Legal(run)
    ensures
      var s := Final(run);
      && (s.client.PastStart? || s.client.PastBoth? ==> NoClearSinceStart(run) ==> !s.cleared)
      && (s.client.PastBoth? && NoClearSinceStart(run) && NoAssignSinceAssigned(run) ==> Settled(run))
  {
    if run.Then? {
      GatesSettle(run.before);
      StateIsHistory(run.before);
      SettledMeans(run.before);
    }
  }

  /** A pause or resume that passed both gates gets all its partitions if nothing was assigned
      since it passed the second one and the set was not cleared since it passed the first. */
  lemma GateMeansComplete(run: Run)
    requires Legal(Then(run, Find)) && NoClearSinceStart(run) && NoAssignSinceAssigned(run)
    ensures Settled(run) && GetsAll(run)
  {
    GatesSettle(run);
    CompleteIff(run);
  }

  /** An assignment, followed by a pause that passes both gates */
  function GatePassed(topic: string): Run {
    Then(Then(Then(Then(Then(Start, Assign([Partition(topic, 0)])), Store), MarkAssigned), CheckStart([topic])), CheckAssigned)
  }

  lemma GatePassedLegal(topic: string)
    ensures Legal(GatePassed(topic)) && Legal(GatePassed(topic).before)
    ensures
      var s := Final(GatePassed(topic));
      && s.client == PastBoth([topic]) && s.rebalance.Idle? && s.startFlag && s.hasAssigned && !s.cleared
      && Final(GatePassed(topic).before) == s.(client := PastStart([topic]))
    ensures StoredLists(GatePassed(topic).before) == [[Partition(topic, 0)]]
    ensures Holding(GatePassed(topic)) && LastAssign(GatePassed(topic)) == [Partition(topic, 0)]
    ensures NoClearSinceStart(GatePassed(topic).before) && Asked(GatePassed(topic).before) == [topic]
  {
    var r5 := GatePassed(topic);
    var r4 := r5.before;
    var r3 := r4.before;
    var r2 := r3.before;
    var r1 := r2.before;
    assert Legal(Start) && Final(Start) == INIT;
    assert Legal(r1) && Final(r1) == INIT.(rebalance := Assigned([Partition(topic, 0)]));
    assert Legal(r2) && Final(r2).rebalance.Stored? && StoredLists(r1) == [] && StoredLists(r2) == [[Partition(topic, 0)]];
    assert Legal(r3) && Final(r3).hasAssigned && Final(r3).rebalance.Idle?;
    assert StoredLists(r3) == StoredLists(r2) == StoredLists(r4);
    assert Legal(r4) && Final(r4).client == PastStart([topic]);
    assert Holding(r1) && Holding(r2) && Holding(r3) && Holding(r4);
    assert LastAssign(r1) == LastAssign(r2) == LastAssign(r3) == LastAssign(r4);
  }

  lemma MissesNew(run: Run, topic: string)
    requires Legal(Then(Then(run, Assign([Partition(topic, 1)])), Find))
    requires StoredLists(run) == [[Partition(topic, 0)]] && Asked(run) == [topic]
    ensures !GetsAll(Then(run, Assign([Partition(topic, 1)])))
  {
    var q := Partition(topic, 1);
    var r := Then(run, Assign([q]));
    FoundIff(r, q);
    assert StoredLists(r) == StoredLists(run);
    assert Current(r, q) && q.topic in Asked(r);
  }

  /** Neither condition can be spared.  A revocation and a new assignment behind the second
      gate, and the call misses what is assigned now. */
  lemma GateCanBeStale(topic: string) returns (run: Run)
    ensures Legal(Then(run, Find)) && NoClearSinceStart(run) && !GetsAll(run)
  {
    GatePassedLegal(topic);
    var r5 := GatePassed(topic);
    var r6 := Then(r5, Unassign);
    assert Legal(r6) && Final(r6) == Final(r5).(rebalance := Unassigned);
    var r7 := Then(r6, MarkUnassigned);
    assert Legal(r7) && Final(r7) == Final(r6).(hasAssigned := false, rebalance := Idle);
    run := Then(r7, Assign([Partition(topic, 1)]));
    assert Legal(run) && Legal(Then(run, Find));
    assert NoClearSinceStart(r5) && NoClearSinceStart(r6) && NoClearSinceStart(r7);
    assert StoredLists(r5) == StoredLists(r6) == StoredLists(r7) && Asked(r5) == Asked(r6) == Asked(r7);
    MissesNew(r7, topic);
  }

  /** Nor is it enough that no revocation begins behind the second gate: the flag is lowered
      only after the partitions are gone. */
  lemma RevokedBeforeTheGate(topic: string) returns (run: Run)
    ensures exists r: Run :: run == Then(Then(Then(r, CheckAssigned), MarkUnassigned), Assign([Partition(topic, 1)]))
    ensures Legal(Then(run, Find)) && NoClearSinceStart(run) && !GetsAll(run)
  {
    GatePassedLegal(topic);
    var r4 := GatePassed(topic).before;
    var r5 := Then(r4, Unassign);
    assert Legal(r5) && Final(r5) == Final(r4).(rebalance := Unassigned);
    var r6 := Then(r5, CheckAssigned);
    assert Legal(r6) && Final(r6) == Final(r5).(client := PastBoth([topic]));
    var r7 := Then(r6, MarkUnassigned);
    assert Legal(r7) && Final(r7) == Final(r6).(hasAssigned := false, rebalance := Idle);
    run := Then(r7, Assign([Partition(topic, 1)]));
    assert Legal(run) && Legal(Then(run, Find));
    assert NoClearSinceStart(r5) && NoClearSinceStart(r6) && NoClearSinceStart(r7);
    assert StoredLists(r4) == StoredLists(r5) == StoredLists(r6) == StoredLists(r7);
    assert Asked(r4) == Asked(r5) == Asked(r6) == Asked(r7);
    MissesNew(r7, topic);
  }

  /** `stop` clears the set before it joins the polling thread: a pause behind both gates then
      gets an empty list, with the partition still assigned and the flag still up. */
  lemma StopEmptiesTheList(topic: string) returns (run: Run)
    ensures Legal(Then(run, Find)) && NoAssignSinceAssigned(run) && MarkedAssigned(run) && !GetsAll(run)
    ensures Current(run, Partition(topic, 0)) && Final(Then(run, Find)).client == Listed([])
  {
    GatePassedLegal(topic);
    var r5 := GatePassed(topic);
    var r6 := Then(r5, StopFlag);
    assert Legal(r6) && Final(r6) == Final(r5).(startFlag := false);
    run := Then(r6, StopClear);
    assert Legal(run) && Final(run).data == map[] && Legal(Then(run, Find));
    StateIsHistory(run);
    assert Listing(map[], [topic]) == [] by {
      assert [topic][..0] == [];
    }
    assert Asked(run) == Asked(r6) == Asked(r5) == [topic];
    assert Current(run, Partition(topic, 0)) by {
      assert Holding(run) == Holding(r6) == Holding(r5) && LastAssign(run) == LastAssign(r6) == LastAssign(r5);
    }
  }

  // ---- Pause and resume without interruption ----

  class Gates {
    var startFlag: bool
    var hasAssigned: bool
    const topicPartitionSet: TopicPartitionSet

    constructor ()
      ensures !startFlag && !hasAssigned && fresh(topicPartitionSet) && topicPartitionSet.data == map[]
    {
      startFlag, hasAssigned := false, false;
      topicPartitionSet := new TopicPartitionSet();
    }

    /** `pause` and `resume`, which differ only in the call they make with the list; `granted`
        is what that call returns. */
    method PauseOrResume(topics: seq<string>, granted: bool) returns (ok: bool, asked: seq<Partition>)
      ensures !startFlag || !hasAssigned ==> !ok && asked == []
      ensures startFlag && hasAssigned ==>
        ok == granted && forall p :: p in asked <==> p.topic in topics && Has(topicPartitionSet.data, p)
    {
      if !startFlag {
        return false, [];
      }
      if !hasAssigned {
        return false, [];
      }
      asked := topicPartitionSet.FindTopics(topics);
      forall p ensures p in asked <==> p.topic in topics && Has(topicPartitionSet.data, p) {
        ListingMeans(topicPartitionSet.data, topics, p);
      }
      ok := granted;
    }
  }
}
