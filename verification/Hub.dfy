/** The Server-Sent Events hub (internal/sse/hub.go). A publish is one section under the lock
    followed by one non-blocking send per target outside it; subscribers join, read and leave
    at any point in between. */
module Hub {
  import opened Common

  const BUFFER: int := 16

  /** `no` is history: the message's place in the order of the publishes' locked sections. */
  datatype Msg = Msg(topic: string, data: int, no: int)

  /** `delivered` and `joinedAt` (the number of publishes locked before) are history. */
  datatype Sub = Sub(topics: set<string>, joined: bool, kicked: bool, gone: bool,
                     initial: map<string, Msg>, ch: seq<Msg>, delivered: seq<Msg>, joinedAt: int)

  /** `flights` holds, for each publish under way, the targets it has still to send to. */
  datatype State = State(snapshots: map<string, Msg>, subs: map<int, Sub>, flights: map<int, set<int>>, log: seq<Msg>)

  datatype Step =
    | Lock(topic: string, data: int)
    | Send(no: int, id: int)
    | Subscribe(id: int, topics: set<string>)
    | Receive(id: int)
    | Leave(id: int)

  const Initial: State := State(map[], map[], map[], [])

  function Targets(subs: map<int, Sub>, topic: string): (ids: set<int>) {
    set id | id in subs && subs[id].joined && topic in subs[id].topics
  }

  /** The locked section of Publish. */
  function OnLock(s: State, topic: string, data: int): (s': State) {
    var m := Msg(topic, data, |s.log|);
    State(s.snapshots[topic := m], s.subs, s.flights[|s.log| := Targets(s.subs, topic)], s.log + [m])
  }

  /** A send never waits: a full buffer costs the subscriber its place. */
  function Offered(sub: Sub, m: Msg): (sub': Sub) {
    if |sub.ch| < BUFFER then sub.(ch := sub.ch + [m]) else sub.(joined := false, kicked := true)
  }

  function OnSend(s: State, no: int, id: int): (s': State) {
    if no in s.flights && id in s.flights[no] && id in s.subs && 0 <= no < |s.log|
    then s.(subs := s.subs[id := Offered(s.subs[id], s.log[no])], flights := s.flights[no := s.flights[no] - {id}])
    else s
  }

  function OnSubscribe(s: State, id: int, topics: set<string>): (s': State) {
    if id in s.subs then s
    else
      var initial := map t | t in topics && t in s.snapshots :: s.snapshots[t];
      s.(subs := s.subs[id := Sub(topics, true, false, false, initial, [], [], |s.log|)])
  }

  function OnReceive(s: State, id: int): (s': State) {
    if id in s.subs && !s.subs[id].gone && s.subs[id].ch != []
    then s.(subs := s.subs[id := s.subs[id].(ch := s.subs[id].ch[1..], delivered := s.subs[id].delivered + [s.subs[id].ch[0]])])
    else s
  }

  function OnLeave(s: State, id: int): (s': State) {
    if id in s.subs then s.(subs := s.subs[id := s.subs[id].(joined := false, gone := true)]) else s
  }

  function Apply(s: State, step: Step): (s': State) {
    match step
    case Lock(topic, data) => OnLock(s, topic, data)
    case Send(no, id) => OnSend(s, no, id)
    case Subscribe(id, topics) => OnSubscribe(s, id, topics)
    case Receive(id) => OnReceive(s, id)
    case Leave(id) => OnLeave(s, id)
  }

  // ---------------------------------------------------------------- what a subscriber has

  /** Everything that got into the subscriber's channel, in order. */
  function Seen(sub: Sub): (ms: seq<Msg>) {
    sub.delivered + sub.ch
  }

  ghost predicate Has(ms: seq<Msg>, no: int) {
    exists k :: 0 <= k < |ms| && ms[k].no == no
  }

  predicate Live(sub: Sub) {
    !sub.kicked && !sub.gone
  }

  predicate Owed(s: State, id: int, no: int) {
    no in s.flights && id in s.flights[no]
  }

  ghost predicate LogOk(s: State) {
    forall n :: 0 <= n < |s.log| ==> s.log[n].no == n
  }

  ghost predicate FlightsOk(s: State) {
    forall n, id :: Owed(s, id, n) ==> 0 <= n < |s.log| && id in s.subs && s.subs[id].joinedAt <= n && s.log[n].topic in s.subs[id].topics
  }

  /** What a subscriber has was published after it joined, on a topic it asked for, and came once. */
  ghost predicate SeenOk(s: State, id: int)
    requires id in s.subs
  {
    var sub := s.subs[id];
    && 0 <= sub.joinedAt <= |s.log|
    && (forall k :: 0 <= k < |Seen(sub)| ==> Fits(s, id, Seen(sub)[k]))
    && (forall k, l :: 0 <= k < l < |Seen(sub)| ==> Seen(sub)[k].no != Seen(sub)[l].no)
  }

  ghost predicate Fits(s: State, id: int, m: Msg)
    requires id in s.subs
  {
    0 <= m.no && s.subs[id].joinedAt <= m.no < |s.log| && s.log[m.no] == m && m.topic in s.subs[id].topics && !Owed(s, id, m.no)
  }

  /** A subscriber that has not lost its place has, or is owed, every publish since it joined. */
  ghost predicate NoneMissed(s: State, id: int)
    requires id in s.subs
  {
    var sub := s.subs[id];
    Live(sub) ==>
      && sub.joined
      && forall n :: 0 <= n && sub.joinedAt <= n < |s.log| && s.log[n].topic in sub.topics ==> Owed(s, id, n) || Has(Seen(sub), n)
  }

  /** The newest message on a topic among the first `upTo` publishes. */
  ghost predicate Newest(log: seq<Msg>, upTo: int, topic: string, m: Msg) {
    && 0 <= m.no < upTo <= |log| && log[m.no] == m && m.topic == topic
    && forall n :: m.no < n < upTo ==> log[n].topic != topic
  }

  ghost predicate SnapshotIs(log: seq<Msg>, upTo: int, topic: string, snap: map<string, Msg>) {
    if topic in snap then Newest(log, upTo, topic, snap[topic])
    else forall n :: 0 <= n < upTo && n < |log| ==> log[n].topic != topic
  }

  ghost predicate SnapshotsOk(s: State) {
    forall t :: SnapshotIs(s.log, |s.log|, t, s.snapshots)
  }

  ghost predicate InitialOk(s: State, id: int)
    requires id in s.subs
  {
    forall t :: t in s.subs[id].topics ==> SnapshotIs(s.log, s.subs[id].joinedAt, t, s.subs[id].initial)
  }

  ghost predicate Inv(s: State) {
    && LogOk(s) && FlightsOk(s) && SnapshotsOk(s)
    && forall id :: id in s.subs ==> SeenOk(s, id) && NoneMissed(s, id) && InitialOk(s, id)
  }

  // ---------------------------------------------------------------- steps

  lemma LockKeeps(s: State, topic: string, data: int)
    requires Inv(s)
    ensures Inv(OnLock(s, topic, data))
  {
    var s' := OnLock(s, topic, data);
    var n := |s.log|;
    assert forall k :: 0 <= k < n ==> s'.log[k] == s.log[k];
    assert forall m, id :: m != n ==> (Owed(s', id, m) <==> Owed(s, id, m));
    forall t ensures SnapshotIs(s'.log, |s'.log|, t, s'.snapshots) {
      assert SnapshotIs(s.log, |s.log|, t, s.snapshots);
    }
    forall id | id in s.subs ensures SeenOk(s', id) && NoneMissed(s', id) && InitialOk(s', id) {
      forall t | t in s.subs[id].topics ensures SnapshotIs(s'.log, s.subs[id].joinedAt, t, s.subs[id].initial) {
        assert SnapshotIs(s.log, s.subs[id].joinedAt, t, s.subs[id].initial);
      }
      forall k | 0 <= k < |Seen(s.subs[id])| ensures Fits(s', id, Seen(s.subs[id])[k]) {
        assert Fits(s, id, Seen(s.subs[id])[k]);
      }
    }
  }

  /** Subscribers other than the one a step touches keep what they had. */
  lemma OthersKeep(s: State, s': State, id: int, other: int)
    requires Inv(s) && other in s.subs && other != id
    requires other in s'.subs && s'.subs[other] == s.subs[other] && s'.log == s.log
    requires forall n :: Owed(s', other, n) <==> Owed(s, other, n)
    ensures SeenOk(s', other) && NoneMissed(s', other) && InitialOk(s', other)
  {
    forall k | 0 <= k < |Seen(s.subs[other])| ensures Fits(s', other, Seen(s.subs[other])[k]) {
      assert Fits(s, other, Seen(s.subs[other])[k]);
    }
  }

  lemma SendKeeps(s: State, no: int, id: int)
    requires Inv(s)
    ensures Inv(OnSend(s, no, id))
  {
    if Owed(s, id, no) && id in s.subs && 0 <= no < |s.log| {
      var s' := OnSend(s, no, id);
      assert forall n, i :: Owed(s', i, n) <==> Owed(s, i, n) && !(n == no && i == id);
      forall other | other in s'.subs && other != id ensures SeenOk(s', other) && NoneMissed(s', other) && InitialOk(s', other) {
        OthersKeep(s, s', id, other);
      }
      OfferedKeeps(s, s', no, id);
    }
  }

  lemma OfferedKeeps(s: State, s': State, no: int, id: int)
    requires Inv(s) && Owed(s, id, no) && id in s.subs && 0 <= no < |s.log| && s' == OnSend(s, no, id)
    requires forall n, i :: Owed(s', i, n) <==> Owed(s, i, n) && !(n == no && i == id)
    ensures SeenOk(s', id) && NoneMissed(s', id) && InitialOk(s', id)
  {
    var a, b := s.subs[id], s'.subs[id];
    assert b == Offered(a, s.log[no]);
    assert Owed(s, id, no);
    forall k | 0 <= k < |Seen(a)| ensures Seen(a)[k].no != no && Fits(s', id, Seen(a)[k]) {
      assert Fits(s, id, Seen(a)[k]);
    }
    if |a.ch| < BUFFER {
      assert Seen(b) == Seen(a) + [s.log[no]];
      assert Fits(s', id, s.log[no]);
      forall n | Has(Seen(a), n) || n == no ensures Has(Seen(b), n) {
        if n == no { assert Seen(b)[|Seen(a)|].no == no; }
        else { var k :| 0 <= k < |Seen(a)| && Seen(a)[k].no == n; assert Seen(b)[k].no == n; }
      }
    } else {
      assert Seen(b) == Seen(a);
    }
  }

  lemma SubscribeKeeps(s: State, id: int, topics: set<string>)
    requires Inv(s)
    ensures Inv(OnSubscribe(s, id, topics))
  {
    if id !in s.subs {
      var s' := OnSubscribe(s, id, topics);
      forall other | other in s.subs ensures SeenOk(s', other) && NoneMissed(s', other) && InitialOk(s', other) {
        OthersKeep(s, s', id, other);
      }
      forall t | t in topics ensures SnapshotIs(s'.log, |s.log|, t, s'.subs[id].initial) {
        assert SnapshotIs(s.log, |s.log|, t, s.snapshots);
      }
      assert SeenOk(s', id) && NoneMissed(s', id) && InitialOk(s', id);
      assert forall n, i :: Owed(s', i, n) <==> Owed(s, i, n);
      assert FlightsOk(s') && LogOk(s');
      forall t ensures SnapshotIs(s'.log, |s'.log|, t, s'.snapshots) { assert SnapshotIs(s.log, |s.log|, t, s.snapshots); }
    }
  }

  lemma ReceiveKeeps(s: State, id: int)
    requires Inv(s)
    ensures Inv(OnReceive(s, id))
  {
    var s' := OnReceive(s, id);
    if s' != s {
      assert Seen(s'.subs[id]) == Seen(s.subs[id]);
      SameSeenKeeps(s, s', id);
    }
  }

  lemma LeaveKeeps(s: State, id: int)
    requires Inv(s)
    ensures Inv(OnLeave(s, id))
  {
    if id in s.subs { SameSeenKeeps(s, OnLeave(s, id), id); }
  }

  lemma SameSeenKeeps(s: State, s': State, id: int)
    requires Inv(s) && id in s.subs && id in s'.subs
    requires s' == s.(subs := s.subs[id := s'.subs[id]])
    requires Seen(s'.subs[id]) == Seen(s.subs[id])
    requires s'.subs[id].topics == s.subs[id].topics && s'.subs[id].initial == s.subs[id].initial && s'.subs[id].joinedAt == s.subs[id].joinedAt
    requires Live(s'.subs[id]) ==> Live(s.subs[id]) && s'.subs[id].joined == s.subs[id].joined
    ensures Inv(s')
  {
    assert forall n, i :: Owed(s', i, n) <==> Owed(s, i, n);
    forall other | other in s.subs && other != id ensures SeenOk(s', other) && NoneMissed(s', other) && InitialOk(s', other) {
      OthersKeep(s, s', id, other);
    }
    forall k | 0 <= k < |Seen(s.subs[id])| ensures Fits(s', id, Seen(s.subs[id])[k]) {
      assert Fits(s, id, Seen(s.subs[id])[k]);
    }
  }

  lemma StepKeeps(s: State, step: Step)
    requires Inv(s)
    ensures Inv(Apply(s, step))
  {
    match step
    case Lock(topic, data) => LockKeeps(s, topic, data);
    case Send(no, id) => SendKeeps(s, no, id);
    case Subscribe(id, topics) => SubscribeKeeps(s, id, topics);
    case Receive(id) => ReceiveKeeps(s, id);
    case Leave(id) => LeaveKeeps(s, id);
  }

  // ---------------------------------------------------------------- every interleaving

  function Run(s: State, steps: seq<Step>): (s': State)
    decreases |steps|
  {
    if steps == [] then s else Run(Apply(s, steps[0]), steps[1..])
  }

  lemma {:induction false} RunKeeps(s: State, steps: seq<Step>)
    requires Inv(s)
    ensures Inv(Run(s, steps))
    decreases |steps|
  {
    if steps != [] {
      StepKeeps(s, steps[0]);
      RunKeeps(Apply(s, steps[0]), steps[1..]);
    }
  }

  /** Under every interleaving: a publish locked after a subscriber joined, on one of its topics,
      is in its channel exactly once as soon as its send is done, unless the subscriber was
      kicked or left; a publish locked before never is, and reaches it only as the newest one
      of its topic in the initial snapshot. */
  lemma DeliveredOnce(steps: seq<Step>, id: int)
    ensures var s := Run(Initial, steps);
            id in s.subs ==>
              var sub := s.subs[id];
              && 0 <= sub.joinedAt <= |s.log|
              && (Live(sub) ==> forall n :: sub.joinedAt <= n < |s.log| && s.log[n].topic in sub.topics && !Owed(s, id, n) ==> Has(Seen(sub), n))
              && (forall k, l :: 0 <= k < l < |Seen(sub)| ==> Seen(sub)[k].no != Seen(sub)[l].no)
              && (forall k :: 0 <= k < |Seen(sub)| ==>
                    sub.joinedAt <= Seen(sub)[k].no < |s.log| && s.log[Seen(sub)[k].no] == Seen(sub)[k] && Seen(sub)[k].topic in sub.topics)
              && (forall t :: t in sub.topics ==> SnapshotIs(s.log, sub.joinedAt, t, sub.initial))
  {
    assert Inv(Initial);
    RunKeeps(Initial, steps);
    var s := Run(Initial, steps);
    if id in s.subs {
      var sub := s.subs[id];
      assert SeenOk(s, id) && NoneMissed(s, id) && InitialOk(s, id);
      assert forall k :: 0 <= k < |Seen(sub)| ==> Fits(s, id, Seen(sub)[k]);
    }
  }

  // ---------------------------------------------------------------- the last value of a topic

  /** The publishes on this topic that are still to be sent to this subscriber. */
  function OwedOn(s: State, id: int, topic: string): (ns: set<int>) {
    set n | 0 <= n < |s.log| && Owed(s, id, n) && s.log[n].topic == topic
  }

  ghost predicate AtMostOneOwed(s: State, id: int, topic: string) {
    forall m, n :: m in OwedOn(s, id, topic) && n in OwedOn(s, id, topic) ==> m == n
  }

  /** A subscriber of the topic that has kept its place and is owed nothing on it. */
  ghost predicate Settled(s: State, id: int, topic: string) {
    id in s.subs && Live(s.subs[id]) && topic in s.subs[id].topics && OwedOn(s, id, topic) == {}
  }

  /** `m` is the last message of its topic in the list. */
  ghost predicate LastOn(ms: seq<Msg>, topic: string, m: Msg) {
    exists k :: 0 <= k < |ms| && ms[k] == m && m.topic == topic && forall l :: k < l < |ms| ==> ms[l].topic != topic
  }

  ghost predicate NothingOn(ms: seq<Msg>, topic: string) {
    forall k :: 0 <= k < |ms| ==> ms[k].topic != topic
  }

  /** The last value delivered or buffered, or else the initial one, is the hub's snapshot. */
  ghost predicate OnSnapshot(s: State, id: int, topic: string)
    requires id in s.subs
  {
    var sub := s.subs[id];
    if NothingOn(Seen(sub), topic)
    then (topic in s.snapshots <==> topic in sub.initial) && (topic in s.snapshots ==> s.snapshots[topic] == sub.initial[topic])
    else topic in s.snapshots && LastOn(Seen(sub), topic, s.snapshots[topic])
  }

  ghost predicate EndsWell(s: State, id: int, topic: string) {
    Settled(s, id, topic) ==> OnSnapshot(s, id, topic)
  }

  /** What the subscriber has on the topic stands in publishing order, and what it is owed is newer. */
  ghost predicate TopicInOrder(s: State, id: int, topic: string)
    requires id in s.subs
  {
    var ms := Seen(s.subs[id]);
    && (forall k, l :: 0 <= k < l < |ms| && ms[k].topic == topic && ms[l].topic == topic ==> ms[k].no < ms[l].no)
    && (forall k, n :: 0 <= k < |ms| && ms[k].topic == topic && n in OwedOn(s, id, topic) ==> ms[k].no < n)
  }

  ghost predicate InOrderIfLive(s: State, id: int, topic: string) {
    id in s.subs && Live(s.subs[id]) ==> TopicInOrder(s, id, topic)
  }

  ghost predicate OneOwedIfLive(s: State, id: int, topic: string) {
    id in s.subs && Live(s.subs[id]) ==> AtMostOneOwed(s, id, topic)
  }

  // ---------------------------------------------------------------- order lost means two were owed

  lemma SameSeenSameOrder(s: State, s': State, id: int, topic: string)
    requires id in s.subs && TopicInOrder(s, id, topic) && id in s'.subs
    requires Seen(s'.subs[id]) == Seen(s.subs[id]) && OwedOn(s', id, topic) <= OwedOn(s, id, topic)
    ensures TopicInOrder(s', id, topic)
  {
  }

  lemma LockKeepsOrder(s: State, t: string, data: int, id: int, topic: string)
    requires Inv(s) && id in s.subs && TopicInOrder(s, id, topic)
    ensures TopicInOrder(OnLock(s, t, data), id, topic)
  {
    var s' := OnLock(s, t, data);
    var ms, n := Seen(s.subs[id]), |s.log|;
    forall m | m in OwedOn(s', id, topic) ensures m in OwedOn(s, id, topic) || m == n {
      if m < n { assert s'.log[m] == s.log[m]; }
    }
    assert SeenOk(s, id);
    forall k | 0 <= k < |ms| ensures ms[k].no < n { assert Fits(s, id, ms[k]); }
  }

  /** A send keeps the order if nothing else was owed on the topic. */
  lemma SendKeepsOrder(s: State, no: int, other: int, id: int, topic: string)
    requires Inv(s) && id in s.subs && TopicInOrder(s, id, topic) && AtMostOneOwed(s, id, topic)
    ensures TopicInOrder(OnSend(s, no, other), id, topic)
  {
    var s' := OnSend(s, no, other);
    OwedAfterSend(s, no, other, id, topic);
    if Seen(s'.subs[id]) == Seen(s.subs[id]) {
      SameSeenSameOrder(s, s', id, topic);
    } else {
      var ms := Seen(s.subs[id]);
      assert Seen(s'.subs[id]) == ms + [s.log[no]];
      assert s.log[no].no == no && Owed(s, id, no);
      assert s.log[no].topic == topic ==> no in OwedOn(s, id, topic);
      assert forall k :: 0 <= k < |ms| ==> Seen(s'.subs[id])[k] == ms[k];
    }
  }

  lemma OwedAfterSend(s: State, no: int, other: int, id: int, topic: string)
    ensures var s' := OnSend(s, no, other);
            OwedOn(s', id, topic) == if s' != s && other == id then OwedOn(s, id, topic) - {no} else OwedOn(s, id, topic)
  {
    var s' := OnSend(s, no, other);
    assert forall n, i :: s' != s ==> (Owed(s', i, n) <==> Owed(s, i, n) && !(n == no && i == other));
  }

  lemma StepKeepsOrder(s: State, step: Step, id: int, topic: string)
    requires Inv(s) && InOrderIfLive(s, id, topic) && OneOwedIfLive(s, id, topic)
    ensures InOrderIfLive(Apply(s, step), id, topic)
  {
    var s' := Apply(s, step);
    if id in s.subs && Live(s.subs[id]) {
      match step
      case Lock(t, data) => LockKeepsOrder(s, t, data, id, topic);
      case Send(no, other) => SendKeepsOrder(s, no, other, id, topic);
      case Subscribe(_, _) => SameSeenSameOrder(s, s', id, topic);
      case Receive(_) =>
        assert Seen(s'.subs[id]) == Seen(s.subs[id]);
        SameSeenSameOrder(s, s', id, topic);
      case Leave(_) => SameSeenSameOrder(s, s', id, topic);
    } else if id in s'.subs && Live(s'.subs[id]) {
      assert Seen(s'.subs[id]) == [];
    }
  }

  // ---------------------------------------------------------------- in order means on the snapshot

  /** Nothing of the topic seen: nothing was published on it since the subscriber joined. */
  lemma NothingSeen(s: State, id: int, topic: string, n: int)
    requires Inv(s) && Settled(s, id, topic)
    requires NothingOn(Seen(s.subs[id]), topic) && s.subs[id].joinedAt <= n < |s.log| && 0 <= n
    ensures s.log[n].topic != topic
  {
    var ms := Seen(s.subs[id]);
    assert NoneMissed(s, id) && SeenOk(s, id);
    assert n !in OwedOn(s, id, topic);
    if Has(ms, n) {
      var k :| 0 <= k < |ms| && ms[k].no == n;
      assert Fits(s, id, ms[k]);
    }
  }

  /** Something of the topic seen: the newest publish on it is the last one seen. */
  lemma NewestSeenLast(s: State, id: int, topic: string, top: Msg)
    requires Inv(s) && Settled(s, id, topic) && TopicInOrder(s, id, topic)
    requires Newest(s.log, |s.log|, topic, top) && s.subs[id].joinedAt <= top.no
    ensures LastOn(Seen(s.subs[id]), topic, top)
  {
    var ms := Seen(s.subs[id]);
    assert NoneMissed(s, id) && SeenOk(s, id);
    assert top.no !in OwedOn(s, id, topic);
    assert Has(ms, top.no);
    var j :| 0 <= j < |ms| && ms[j].no == top.no;
    assert Fits(s, id, ms[j]);
    forall l | j < l < |ms| ensures ms[l].topic != topic {
      assert Fits(s, id, ms[l]);
    }
  }

  lemma InOrderEndsWell(s: State, id: int, topic: string)
    requires Inv(s) && InOrderIfLive(s, id, topic)
    ensures EndsWell(s, id, topic)
  {
    if Settled(s, id, topic) {
      var sub := s.subs[id];
      assert SeenOk(s, id) && InitialOk(s, id);
      assert SnapshotIs(s.log, |s.log|, topic, s.snapshots);
      assert SnapshotIs(s.log, sub.joinedAt, topic, sub.initial);
      if NothingOn(Seen(sub), topic) {
        forall n | sub.joinedAt <= n < |s.log| ensures s.log[n].topic != topic { NothingSeen(s, id, topic, n); }
      } else {
        var k :| 0 <= k < |Seen(sub)| && Seen(sub)[k].topic == topic;
        assert Fits(s, id, Seen(sub)[k]);
        NewestSeenLast(s, id, topic, s.snapshots[topic]);
      }
    }
  }

  // ---------------------------------------------------------------- two owed means an order that inverts

  /** Sends and reads only: what is left to do once no new publish starts. */
  predicate Quiet(steps: seq<Step>) {
    forall i :: 0 <= i < |steps| ==> steps[i].Send? || steps[i].Receive?
  }

  lemma {:induction false} RunAppend(s: State, xs: seq<Step>, ys: seq<Step>)
    ensures Run(s, xs + ys) == Run(Run(s, xs), ys)
    decreases |xs|
  {
    if xs == [] {
      assert xs + ys == ys;
    } else {
      assert (xs + ys)[0] == xs[0] && (xs + ys)[1..] == xs[1..] + ys;
      RunAppend(Apply(s, xs[0]), xs[1..], ys);
    }
  }

  /** The subscriber reads until there is room for a send. */
  lemma {:induction false} MakeRoom(s: State, id: int) returns (drain: seq<Step>)
    requires id in s.subs && Live(s.subs[id])
    ensures Quiet(drain) && id in Run(s, drain).subs
    ensures Run(s, drain) == s.(subs := s.subs[id := Run(s, drain).subs[id]])
    ensures var a, b := s.subs[id], Run(s, drain).subs[id];
            Live(b) && |b.ch| < BUFFER && Seen(b) == Seen(a) && b.topics == a.topics
    decreases |s.subs[id].ch|
  {
    if |s.subs[id].ch| < BUFFER {
      drain := [];
      assert s.subs[id := s.subs[id]] == s.subs;
    } else {
      var s1 := OnReceive(s, id);
      assert Seen(s1.subs[id]) == Seen(s.subs[id]);
      var more := MakeRoom(s1, id);
      drain := [Receive(id)] + more;
      assert drain[1..] == more;
      assert s1.subs[id := Run(s1, more).subs[id]] == s.subs[id := Run(s1, more).subs[id]];
    }
  }

  /** Room is made and one owed publish is sent. */
  lemma SendOneMore(s: State, id: int, n: int, topic: string) returns (steps: seq<Step>)
    requires Inv(s) && id in s.subs && Live(s.subs[id]) && n in OwedOn(s, id, topic)
    ensures Quiet(steps)
    ensures var s' := Run(s, steps);
            && Inv(s') && s'.log == s.log && s'.snapshots == s.snapshots
            && id in s'.subs && Live(s'.subs[id]) && s'.subs[id].topics == s.subs[id].topics
            && Seen(s'.subs[id]) == Seen(s.subs[id]) + [s.log[n]]
            && OwedOn(s', id, topic) == OwedOn(s, id, topic) - {n}
  {
    var drain := MakeRoom(s, id);
    var s1 := Run(s, drain);
    RunKeeps(s, drain);
    steps := drain + [Send(n, id)];
    RunAppend(s, drain, [Send(n, id)]);
    var s2 := OnSend(s1, n, id);
    assert [Send(n, id)][1..] == [];
    assert Run(s1, [Send(n, id)]) == s2;
    assert OwedOn(s1, id, topic) == OwedOn(s, id, topic);
    assert Owed(s1, id, n);
    assert Seen(s2.subs[id]) == Seen(s1.subs[id]) + [s.log[n]];
    OwedAfterSend(s1, n, id, id, topic);
    SendKeeps(s1, n, id);
    assert n !in s2.flights || id !in s2.flights[n];
  }

  /** Whatever is owed on a topic, it can be sent in an order that ends with the publish `last`. */
  lemma {:induction false} FinishWith(s: State, id: int, topic: string, last: int) returns (rest: seq<Step>)
    requires Inv(s) && id in s.subs && Live(s.subs[id]) && topic in s.subs[id].topics && last in OwedOn(s, id, topic)
    ensures Quiet(rest)
    ensures var s' := Run(s, rest);
            && s'.log == s.log && s'.snapshots == s.snapshots && Settled(s', id, topic)
            && LastOn(Seen(s'.subs[id]), topic, s.log[last])
    decreases |OwedOn(s, id, topic)|
  {
    var others := OwedOn(s, id, topic) - {last};
    if others == {} {
      rest := SendOneMore(s, id, last, topic);
      var ms := Seen(Run(s, rest).subs[id]);
      assert ms[|ms| - 1] == s.log[last];
    } else {
      HasElement(others);
      var n :| n in others;
      var first := SendOneMore(s, id, n, topic);
      var then_ := FinishWith(Run(s, first), id, topic, last);
      rest := first + then_;
      RunAppend(s, first, then_);
    }
  }

  lemma LastIsUnique(ms: seq<Msg>, topic: string, a: Msg, b: Msg)
    requires LastOn(ms, topic, a) && LastOn(ms, topic, b)
    ensures a == b
  {
    var i :| 0 <= i < |ms| && ms[i] == a && a.topic == topic && forall l :: i < l < |ms| ==> ms[l].topic != topic;
    var j :| 0 <= j < |ms| && ms[j] == b && b.topic == topic && forall l :: j < l < |ms| ==> ms[l].topic != topic;
    assert i == j;
  }

  /** From any reachable state in which a live subscriber is owed two publishes of a topic, some
      order of the outstanding sends, with reads in between, leaves it live on an older value. */
  lemma TwoOwedCanInvert(s: State, id: int, topic: string) returns (rest: seq<Step>)
    requires Inv(s) && id in s.subs && Live(s.subs[id]) && !AtMostOneOwed(s, id, topic)
    ensures Quiet(rest) && Settled(Run(s, rest), id, topic) && !OnSnapshot(Run(s, rest), id, topic)
  {
    var m, n :| m in OwedOn(s, id, topic) && n in OwedOn(s, id, topic) && m != n;
    var older, newer := if m < n then m else n, if m < n then n else m;
    assert Owed(s, id, older);
    rest := FinishWith(s, id, topic, older);
    var s' := Run(s, rest);
    var ms := Seen(s'.subs[id]);
    assert !NothingOn(ms, topic);
    assert SnapshotIs(s.log, |s.log|, topic, s.snapshots);
    assert s.log[newer].topic == topic;
    assert topic in s.snapshots && s.snapshots[topic] != s.log[older];
    if LastOn(ms, topic, s.snapshots[topic]) { LastIsUnique(ms, topic, s.log[older], s.snapshots[topic]); }
  }

  // ---------------------------------------------------------------- exactly when the promise is kept

  /** At no point of the run is the subscriber, while live, owed two publishes of the topic at once. */
  ghost predicate NeverTwoOwed(steps: seq<Step>, id: int, topic: string) {
    forall k :: 0 <= k <= |steps| ==> OneOwedIfLive(Run(Initial, steps[..k]), id, topic)
  }

  /** From every point of the run, every order of the outstanding sends, with reads anywhere in
      between, ends a subscriber that is still live on the hub's snapshot. */
  ghost predicate AlwaysEndsWell(steps: seq<Step>, id: int, topic: string) {
    forall k, rest :: 0 <= k <= |steps| && Quiet(rest) ==> EndsWell(Run(Run(Initial, steps[..k]), rest), id, topic)
  }

  lemma {:induction false} PrefixInOrder(steps: seq<Step>, k: nat, id: int, topic: string)
    requires NeverTwoOwed(steps, id, topic) && k <= |steps|
    ensures Inv(Run(Initial, steps[..k])) && InOrderIfLive(Run(Initial, steps[..k]), id, topic)
  {
    assert Inv(Initial);
    RunKeeps(Initial, steps[..k]);
    if k > 0 {
      PrefixInOrder(steps, k - 1, id, topic);
      var s := Run(Initial, steps[..k - 1]);
      StepKeepsOrder(s, steps[k - 1], id, topic);
      assert steps[..k] == steps[..k - 1] + [steps[k - 1]];
      RunAppend(Initial, steps[..k - 1], [steps[k - 1]]);
      assert [steps[k - 1]][1..] == [];
      assert Run(s, [steps[k - 1]]) == Apply(s, steps[k - 1]);
    }
  }

  lemma QuietOwesLess(s: State, step: Step, id: int, topic: string)
    requires (step.Send? || step.Receive?) && OneOwedIfLive(s, id, topic)
    ensures OneOwedIfLive(Apply(s, step), id, topic)
  {
    if step.Send? {
      OwedAfterSend(s, step.no, step.id, id, topic);
    } else {
      assert OwedOn(Apply(s, step), id, topic) == OwedOn(s, id, topic);
    }
  }

  lemma {:induction false} QuietKeepsOrder(s: State, rest: seq<Step>, id: int, topic: string)
    requires Inv(s) && Quiet(rest) && InOrderIfLive(s, id, topic) && OneOwedIfLive(s, id, topic)
    ensures Inv(Run(s, rest)) && InOrderIfLive(Run(s, rest), id, topic)
    decreases |rest|
  {
    if rest != [] {
      StepKeeps(s, rest[0]);
      StepKeepsOrder(s, rest[0], id, topic);
      QuietOwesLess(s, rest[0], id, topic);
      QuietKeepsOrder(Apply(s, rest[0]), rest[1..], id, topic);
    }
  }

  /** The hub keeps its promise of the newest value to a subscriber exactly when publishes of the
      topic never overlap for it: every order of the outstanding sends, from every point of a run,
      ends it on the snapshot if and only if it is never owed two publishes of the topic at once. */
  lemma SnapshotExactly(steps: seq<Step>, id: int, topic: string)
    ensures AlwaysEndsWell(steps, id, topic) <==> NeverTwoOwed(steps, id, topic)
  {
    if NeverTwoOwed(steps, id, topic) {
      forall k, rest | 0 <= k <= |steps| && Quiet(rest) ensures EndsWell(Run(Run(Initial, steps[..k]), rest), id, topic) {
        PrefixInOrder(steps, k, id, topic);
        var s := Run(Initial, steps[..k]);
        QuietKeepsOrder(s, rest, id, topic);
        InOrderEndsWell(Run(s, rest), id, topic);
      }
    } else {
      var k :| 0 <= k <= |steps| && !OneOwedIfLive(Run(Initial, steps[..k]), id, topic);
      assert Inv(Initial);
      RunKeeps(Initial, steps[..k]);
      var rest := TwoOwedCanInvert(Run(Initial, steps[..k]), id, topic);
      assert !EndsWell(Run(Run(Initial, steps[..k]), rest), id, topic);
    }
  }

  // ---------------------------------------------------------------- publishes that do not overlap

  /** A step that starts a publish on a topic only when no earlier one on it is still sending. */
  ghost predicate InTurn(s: State, step: Step) {
    step.Lock? ==> forall n, id :: Owed(s, id, n) && 0 <= n < |s.log| ==> s.log[n].topic != step.topic
  }

  ghost predicate AllInTurn(s: State, steps: seq<Step>)
    decreases |steps|
  {
    steps == [] || (InTurn(s, steps[0]) && AllInTurn(Apply(s, steps[0]), steps[1..]))
  }

  lemma TurnKeepsOneOwed(s: State, step: Step, id: int, topic: string)
    requires Inv(s) && InTurn(s, step) && OneOwedIfLive(s, id, topic)
    ensures OneOwedIfLive(Apply(s, step), id, topic)
  {
    var s' := Apply(s, step);
    if step.Lock? {
      forall m | m in OwedOn(s', id, topic) ensures m == |s.log| || m in OwedOn(s, id, topic) {
        if m < |s.log| { assert s'.log[m] == s.log[m]; assert Owed(s, id, m); }
      }
      forall m | m in OwedOn(s, id, topic) ensures step.topic != topic { assert Owed(s, id, m); }
    } else if step.Send? {
      OwedAfterSend(s, step.no, step.id, id, topic);
    } else {
      assert OwedOn(s', id, topic) == OwedOn(s, id, topic);
      forall m | m in OwedOn(s, id, topic) ensures id in s.subs { assert Owed(s, id, m); }
    }
  }

  lemma {:induction false} RunInTurn(s: State, steps: seq<Step>, id: int, topic: string)
    requires Inv(s) && AllInTurn(s, steps) && InOrderIfLive(s, id, topic) && OneOwedIfLive(s, id, topic)
    ensures Inv(Run(s, steps)) && InOrderIfLive(Run(s, steps), id, topic)
    decreases |steps|
  {
    if steps != [] {
      StepKeeps(s, steps[0]);
      StepKeepsOrder(s, steps[0], id, topic);
      TurnKeepsOneOwed(s, steps[0], id, topic);
      RunInTurn(Apply(s, steps[0]), steps[1..], id, topic);
    }
  }

  /** If a publish on a topic starts only when no earlier one on it is still sending, every live
      subscriber that is owed nothing on the topic has ended on the hub's snapshot. */
  lemma LastValueIsSnapshot(steps: seq<Step>, id: int, topic: string)
    requires AllInTurn(Initial, steps)
    ensures EndsWell(Run(Initial, steps), id, topic)
  {
    assert Inv(Initial);
    RunInTurn(Initial, steps, id, topic);
    InOrderEndsWell(Run(Initial, steps), id, topic);
  }

  /** The smallest input that breaks the promise: two publishes of one topic whose sends cross. */
  lemma CrossedSendsInvert(topic: string)
    ensures var s := Run(Initial, [Subscribe(7, {topic}), Lock(topic, 1), Lock(topic, 2), Send(1, 7), Send(0, 7)]);
            && 7 in s.subs && Live(s.subs[7])
            && s.subs[7].ch == [Msg(topic, 2, 1), Msg(topic, 1, 0)]
            && topic in s.snapshots && s.snapshots[topic].data == 2
  {
    var s1 := Apply(Initial, Subscribe(7, {topic}));
    var s2 := Apply(s1, Lock(topic, 1));
    var s3 := Apply(s2, Lock(topic, 2));
    var s4 := Apply(s3, Send(1, 7));
    var s5 := Apply(s4, Send(0, 7));
    var steps := [Subscribe(7, {topic}), Lock(topic, 1), Lock(topic, 2), Send(1, 7), Send(0, 7)];
    assert 7 in Targets(s1.subs, topic);
    assert 7 in Targets(s2.subs, topic);
    assert Run(s5, steps[1..][1..][1..][1..][1..]) == s5;
    assert Run(s4, steps[1..][1..][1..][1..]) == s5;
    assert Run(s3, steps[1..][1..][1..]) == s5;
    assert Run(s2, steps[1..][1..]) == s5;
    assert Run(s1, steps[1..]) == s5;
  }

  // ---------------------------------------------------------------- the hub as it runs

  /** Exactly these subscribers were offered the message. */
  ghost predicate OfferedTo(before: map<int, Sub>, after: map<int, Sub>, targets: set<int>, m: Msg) {
    && after.Keys == before.Keys
    && forall id :: id in after ==> after[id] == if id in targets then Offered(before[id], m) else before[id]
  }

  lemma OfferedToOneMore(before: map<int, Sub>, mid: map<int, Sub>, targets: set<int>, m: Msg, id: int)
    requires OfferedTo(before, mid, targets, m) && id in mid && id !in targets
    ensures OfferedTo(before, mid[id := Offered(mid[id], m)], targets + {id}, m)
  {
  }

  class Hub {
    var snapshots: map<string, Msg>
    var subs: map<int, Sub>
    ghost var log: seq<Msg>
    ghost var flights: map<int, set<int>>

    ghost function St(): (s: State)
      reads this
    {
      State(snapshots, subs, flights, log)
    }

    constructor ()
      ensures St() == Initial
    {
      snapshots, subs, log, flights := map[], map[], [], map[];
    }

    /** The locked section of Publish: replace the snapshot, collect the targets. */
    method PublishLocked(topic: string, data: int, no: int) returns (targets: set<int>)
      requires no == |log|
      modifies this
      ensures St() == OnLock(old(St()), topic, data)
      ensures targets == Targets(old(subs), topic)
    {
      var m := Msg(topic, data, no);
      snapshots := snapshots[topic := m];
      targets := set id | id in subs && subs[id].joined && topic in subs[id].topics;
      flights := flights[no := targets];
      log := log + [m];
    }

    /** One `select` with a default: the send or the disconnect. */
    method SendTo(m: Msg, id: int)
      requires id in subs && 0 <= m.no < |log| && log[m.no] == m && m.no in flights && id in flights[m.no]
      modifies this
      ensures St() == OnSend(old(St()), m.no, id)
      ensures subs == old(subs)[id := Offered(old(subs)[id], m)] && flights == old(flights)[m.no := old(flights)[m.no] - {id}]
    {
      var sub := subs[id];
      if |sub.ch| < BUFFER {
        subs := subs[id := sub.(ch := sub.ch + [m])];
      } else {
        subs := subs[id := sub.(joined := false, kicked := true)];
      }
      flights := flights[m.no := flights[m.no] - {id}];
    }

    /** Publish with nothing in between: every joined subscriber of the topic gets the message at
        the end of its channel or is disconnected, nobody else is touched, whatever order the
        subscriber map is walked in. */
    method Publish(topic: string, data: int, no: int)
      requires no == |log|
      modifies this
      ensures snapshots == old(snapshots)[topic := Msg(topic, data, no)] && log == old(log) + [Msg(topic, data, no)]
      ensures OfferedTo(old(subs), subs, Targets(old(subs), topic), Msg(topic, data, no))
      ensures flights == old(flights)[no := {}]
    {
      var m := Msg(topic, data, no);
      var targets := PublishLocked(topic, data, no);
      SendAll(m, targets);
    }

    /** The sends of one publish, outside the lock and in any order. */
    method SendAll(m: Msg, targets: set<int>)
      requires 0 <= m.no < |log| && log[m.no] == m && m.no in flights && flights[m.no] == targets && targets <= subs.Keys
      modifies this
      ensures snapshots == old(snapshots) && log == old(log)
      ensures OfferedTo(old(subs), subs, targets, m)
      ensures flights == old(flights)[m.no := {}]
    {
      var todo := targets;
      while todo != {}
        invariant todo <= targets && snapshots == old(snapshots) && log == old(log)
        invariant flights == old(flights)[m.no := todo]
        invariant OfferedTo(old(subs), subs, targets - todo, m)
        decreases |todo|
      {
        HasElement(todo);
        var id :| id in todo;
        OfferedToOneMore(old(subs), subs, targets - todo, m, id);
        SendTo(m, id);
        assert targets - (todo - {id}) == (targets - todo) + {id};
        todo := todo - {id};
      }
      assert targets - todo == targets;
    }

    method SubscribeTo(id: int, topics: set<string>, at: int) returns (initial: map<string, Msg>)
      requires id !in subs && at == |log|
      modifies this
      ensures St() == OnSubscribe(old(St()), id, topics)
      ensures id in subs && initial == subs[id].initial
    {
      initial := map t | t in topics && t in snapshots :: snapshots[t];
      subs := subs[id := Sub(topics, true, false, false, initial, [], [], at)];
    }

    /** The handler's deferred unsubscribe. */
    method Unsubscribe(id: int)
      requires id in subs
      modifies this`subs
      ensures St() == OnLeave(old(St()), id)
    {
      subs := subs[id := subs[id].(joined := false, gone := true)];
    }
  }
}
