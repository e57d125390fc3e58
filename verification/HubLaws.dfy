/** The hub told from one subscriber's side (internal/sse/hub.go): its mailbox is a machine of its
    own, fed by the publishes, sends, reads, joins and leaves of the run and by nothing else. */
module HubLaws {
  import opened Common
  import opened Hub

  /** What was published, in order, each with its number. */
  function Published(steps: seq<Step>): (log: seq<Msg>)
    decreases |steps|
  {
    if steps == [] then []
    else
      var before := Published(steps[..|steps| - 1]);
      match steps[|steps| - 1]
      case Lock(topic, data) => before + [Msg(topic, data, |before|)]
      case _ => before
  }

  /** `owed`: the publishes begun while it was joined and not yet sent to it. `seen`: the numbers of
      those that got into its channel, in order, the first `read` of them read. */
  datatype Mailbox = Mailbox(topics: set<string>, since: int, owed: set<int>, seen: seq<int>, read: int, kicked: bool, gone: bool)

  predicate Joined(m: Mailbox) {
    !m.kicked && !m.gone
  }

  function Unread(m: Mailbox): (n: int) {
    |m.seen| - m.read
  }

  /** One step, with `count` publishes begun before it. */
  function Mailed(m: Option<Mailbox>, id: int, count: int, s: Step): (m': Option<Mailbox>) {
    match m
    case None => if s.Subscribe? && s.id == id then Some(Mailbox(s.topics, count, {}, [], 0, false, false)) else None
    case Some(b) =>
      match s
      case Lock(topic, _) => if Joined(b) && topic in b.topics then Some(b.(owed := b.owed + {count})) else m
      case Send(no, to) =>
        if to != id || no !in b.owed then m
        else if Unread(b) < 16 then Some(b.(owed := b.owed - {no}, seen := b.seen + [no]))
        else Some(b.(owed := b.owed - {no}, kicked := true))
      case Receive(to) => if to == id && !b.gone && Unread(b) > 0 then Some(b.(read := b.read + 1)) else m
      case Leave(to) => if to == id then Some(b.(gone := true)) else m
      case Subscribe(_, _) => m
  }

  function MailboxOf(steps: seq<Step>, id: int): (m: Option<Mailbox>)
    decreases |steps|
  {
    if steps == [] then None
    else
      var before := steps[..|steps| - 1];
      Mailed(MailboxOf(before, id), id, |Published(before)|, steps[|steps| - 1])
  }

  /** The subscriber is in the state its mailbox says. */
  ghost predicate IsMailbox(s: State, id: int, m: Mailbox) {
    && id in s.subs
    && var sub := s.subs[id];
       && sub.topics == m.topics && sub.joinedAt == m.since && sub.kicked == m.kicked && sub.gone == m.gone
       && (sub.joined <==> Joined(m))
       && (forall n :: n in m.owed <==> Owed(s, id, n))
       && |Seen(sub)| == |m.seen| && |sub.delivered| == m.read
       && forall k :: 0 <= k < |m.seen| ==> 0 <= m.seen[k] < |s.log| && Seen(sub)[k] == s.log[m.seen[k]]
  }

  ghost predicate MailTold(s: State, id: int, m: Option<Mailbox>) {
    match m
    case None => id !in s.subs
    case Some(b) => IsMailbox(s, id, b)
  }

  lemma LockMails(s: State, id: int, m: Mailbox, topic: string, data: int)
    requires Inv(s) && IsMailbox(s, id, m)
    ensures MailTold(OnLock(s, topic, data), id, Mailed(Some(m), id, |s.log|, Lock(topic, data)))
  {
    var s' := OnLock(s, topic, data);
    var n := |s.log|;
    forall k ensures Owed(s', id, k) <==> if k == n then Joined(m) && topic in m.topics else Owed(s, id, k) {
      if k == n { assert id in s'.flights[n] <==> id in Targets(s.subs, topic); }
    }
    assert !Owed(s, id, n);
    assert forall k :: 0 <= k < n ==> s'.log[k] == s.log[k];
  }

  lemma SendMails(s: State, id: int, m: Mailbox, no: int)
    requires Inv(s) && IsMailbox(s, id, m)
    ensures MailTold(OnSend(s, no, id), id, Mailed(Some(m), id, |s.log|, Send(no, id)))
  {
    var s' := OnSend(s, no, id);
    if Owed(s, id, no) {
      assert 0 <= no < |s.log|;
      assert forall n :: Owed(s', id, n) <==> Owed(s, id, n) && n != no;
      var a, b := s.subs[id], s'.subs[id];
      assert |a.ch| == |Seen(a)| - |a.delivered|;
      if |a.ch| < BUFFER { assert Seen(b) == Seen(a) + [s.log[no]]; }
    }
  }

  lemma ReceiveMails(s: State, id: int, m: Mailbox)
    requires Inv(s) && IsMailbox(s, id, m)
    ensures MailTold(OnReceive(s, id), id, Mailed(Some(m), id, |s.log|, Receive(id)))
  {
    var s' := OnReceive(s, id);
    var a, b := s.subs[id], s'.subs[id];
    assert |a.ch| == |Seen(a)| - |a.delivered|;
    assert forall n :: Owed(s', id, n) <==> Owed(s, id, n);
    if s' != s { assert Seen(b) == Seen(a); }
  }

  /** Steps about another subscriber leave this one's mailbox alone. */
  lemma OthersMail(s: State, id: int, m: Mailbox, step: Step)
    requires Inv(s) && IsMailbox(s, id, m)
    requires !step.Lock? && (step.id != id || step.Subscribe?)
    ensures MailTold(Apply(s, step), id, Mailed(Some(m), id, |s.log|, step))
  {
    var s' := Apply(s, step);
    assert forall n :: Owed(s', id, n) <==> Owed(s, id, n);
  }

  lemma LeaveMails(s: State, id: int, m: Mailbox)
    requires Inv(s) && IsMailbox(s, id, m)
    ensures MailTold(OnLeave(s, id), id, Mailed(Some(m), id, |s.log|, Leave(id)))
  {
    var s' := OnLeave(s, id);
    assert forall n :: Owed(s', id, n) <==> Owed(s, id, n);
  }

  lemma JoinMails(s: State, id: int, step: Step)
    requires Inv(s) && id !in s.subs
    ensures MailTold(Apply(s, step), id, Mailed(None, id, |s.log|, step))
  {
    var s' := Apply(s, step);
    if step.Subscribe? && step.id == id {
      assert forall n :: !Owed(s, id, n);
      assert forall n :: Owed(s', id, n) <==> Owed(s, id, n);
    }
  }

  lemma StepMails(s: State, id: int, m: Option<Mailbox>, step: Step)
    requires Inv(s) && MailTold(s, id, m)
    ensures MailTold(Apply(s, step), id, Mailed(m, id, |s.log|, step))
  {
    match m
    case None => JoinMails(s, id, step);
    case Some(b) =>
      match step
      case Lock(topic, data) => LockMails(s, id, b, topic, data);
      case Send(no, to) => if to == id { SendMails(s, id, b, no); } else { OthersMail(s, id, b, step); }
      case Receive(to) => if to == id { ReceiveMails(s, id, b); } else { OthersMail(s, id, b, step); }
      case Leave(to) => if to == id { LeaveMails(s, id, b); } else { OthersMail(s, id, b, step); }
      case Subscribe(_, _) => OthersMail(s, id, b, step);
  }

  /** Under every interleaving: the hub's log is what was published, and each subscriber is where its
      own mailbox says. In particular everything published on its topics while it is joined is owed
      to it, gets into its channel in the order of the sends and is read in that order; it is kicked
      exactly when a send finds sixteen messages unread; and what it has read it read one by one. */
  lemma {:induction false} MailboxIsTold(steps: seq<Step>, id: int)
    ensures Run(Initial, steps).log == Published(steps)
    ensures MailTold(Run(Initial, steps), id, MailboxOf(steps, id))
    decreases |steps|
  {
    if steps != [] {
      var before, last := steps[..|steps| - 1], steps[|steps| - 1];
      var s := Run(Initial, before);
      MailboxIsTold(before, id);
      assert Inv(Initial);
      RunKeeps(Initial, before);
      assert steps == before + [last];
      RunAppend(Initial, before, [last]);
      assert [last][1..] == [];
      assert Run(s, [last]) == Apply(s, last);
      StepMails(s, id, MailboxOf(before, id), last);
    }
  }
}
