/** The triggers relayed by the ESP-NOW client (firmware/src/uplink_espnow.cpp), told from what was
    handed to it: each goes out in its own words, three times unless something cut it short, and one
    handed over while the link is down waits for it up to three seconds. */
module EspNowBursts {
  import opened Common
  import opened EspNow
  import opened EspNowRuns
  import WB = WifiBurst

  datatype Waiting = Waiting(text: string, at: Tick)

  /** `texts`: what each burst was to say. `cut`: the bursts that were still to send a copy when the
      next one began or the link was lost. `waiting`: the trigger handed over last, if it has neither
      been relayed nor waited too long. */
  datatype History = History(texts: seq<string>, cut: set<int>, waiting: Option<Waiting>)

  const Fresh: History := History([], {}, None)

  predicate UsableAt(c: Client, now: Tick) {
    c.haveHost && !Lost(c, now) && !c.roleCollision && c.hostUplinkUp
  }

  /** A copy is left to send even if one goes out now. */
  predicate CopyLeft(c: Client, now: Tick) {
    c.burst.active && (c.burst.remaining == 2 || NotYet(now, c.burst.nextAtMs))
  }

  function CutShort(h: History, short: bool): (h': History) {
    if short then h.(cut := h.cut + {|h.texts|}) else h
  }

  function Noted(h: History, c: Client, s: Step): (h': History) {
    match s
    case Send(payload, burst3, now, _) =>
      if !burst3 || |payload| >= 192 then h
      else if c.haveHost && !c.roleCollision && c.hostUplinkUp then
        var h1 := CutShort(h, c.burst.active);
        h1.(texts := h1.texts + [payload])
      else h.(waiting := Some(Waiting(payload, now)))
    case LoopRest(now, _, _) =>
      var h1 := CutShort(h, Lost(c, now) && c.burst.active);
      if h.waiting == None then h1
      else if UsableAt(c, now) then
        var h2 := CutShort(h, CopyLeft(c, now));
        h2.(texts := h2.texts + [h.waiting.value.text], waiting := None)
      else if Sub32(now, h.waiting.value.at) > 3000 then h1.(waiting := None)
      else h1
    case _ => h
  }

  function HistoryOf(role: int, steps: seq<Step>): (h: History)
    decreases |steps|
  {
    if steps == [] then Fresh
    else var k := |steps| - 1; Noted(HistoryOf(role, steps[..k]), After(Begun(role), steps[..k]), steps[k])
  }

  // ---------------------------------------------------------------- what is on the air

  /** Of burst b: one to three copies, in its own words; three unless it was cut short or has a copy
      to send yet. */
  ghost predicate BurstIs(sent: seq<Frame>, burst: Burst, texts: seq<string>, cut: set<int>, b: int)
    requires 1 <= b <= |texts|
  {
    && 1 <= Copies(sent, b) <= 3
    && (b == |texts| && burst.active ==> Copies(sent, b) + burst.remaining == 3 && b !in cut)
    && (b in cut || (b == |texts| && burst.active) || Copies(sent, b) == 3)
    && forall i :: 0 <= i < |sent| && IsCopy(sent[i], b) ==> sent[i].payload == texts[b - 1]
  }

  ghost predicate NoneOf(sent: seq<Frame>, b: int) {
    Copies(sent, b) == 0 && forall i :: 0 <= i < |sent| ==> !IsCopy(sent[i], b)
  }

  ghost predicate OnAir(sent: seq<Frame>, burst: Burst, texts: seq<string>, cut: set<int>) {
    && (forall b :: 1 <= b <= |texts| ==> BurstIs(sent, burst, texts, cut, b))
    && (forall b :: b > |texts| ==> NoneOf(sent, b))
    && (forall b :: b in cut ==> 1 <= b <= |texts|)
    && (burst.active ==> |texts| >= 1 && 1 <= burst.remaining <= 2 && burst.payload == texts[|texts| - 1] && |burst.payload| < PAYLOAD_CAP)
  }

  ghost predicate BurstsTold(c: Client, h: History) {
    c.bursts == |h.texts| && OnAir(c.sent, c.burst, h.texts, h.cut)
  }

  /** What waits to be relayed is what the history says. */
  ghost predicate WaitsTold(c: Client, h: History) {
    && (c.pending.active <==> h.waiting.Some?)
    && (c.pending.active ==> c.pending.payload == h.waiting.value.text && c.pending.queuedAtMs == h.waiting.value.at
                             && |c.pending.payload| < PAYLOAD_CAP)
  }

  ghost predicate Told(c: Client, h: History) {
    BurstsTold(c, h) && WaitsTold(c, h)
  }

  /** The fields that the copies depend on, but for the frames sent. */
  predicate SameBursts(c: Client, d: Client) {
    d.bursts == c.bursts && d.burst == c.burst
  }

  lemma OtherFrame(sent: seq<Frame>, burst: Burst, texts: seq<string>, cut: set<int>, f: Frame)
    requires OnAir(sent, burst, texts, cut) && (f.Relay? ==> f.burst == 0)
    ensures OnAir(sent + [f], burst, texts, cut)
  {
    forall b | 1 <= b ensures Copies(sent + [f], b) == Copies(sent, b) { OneMore(sent, f, b); }
    forall b | 1 <= b <= |texts| ensures BurstIs(sent + [f], burst, texts, cut, b) { assert BurstIs(sent, burst, texts, cut, b); }
    forall b | b > |texts| ensures NoneOf(sent + [f], b) { assert NoneOf(sent, b); }
  }

  /** At most one frame was sent, and that is no copy of a burst. */
  predicate Adds(c: Client, d: Client) {
    d.sent == c.sent || (|d.sent| == |c.sent| + 1 && d.sent[..|c.sent|] == c.sent && (d.sent[|c.sent|].Relay? ==> d.sent[|c.sent|].burst == 0))
  }

  lemma OtherFrames(c: Client, d: Client, h: History)
    requires BurstsTold(c, h) && SameBursts(c, d) && Adds(c, d)
    ensures BurstsTold(d, h)
  {
    if d.sent != c.sent {
      assert d.sent == c.sent + [d.sent[|c.sent|]];
      OtherFrame(c.sent, c.burst, h.texts, h.cut, d.sent[|c.sent|]);
    }
  }

  /** A copy of the latest burst goes out. */
  lemma CopyCounts(sent: seq<Frame>, f: Frame, b: int)
    requires f.Relay?
    ensures Copies(sent + [f], b) == Copies(sent, b) + if b == f.burst then 1 else 0
    ensures b != f.burst && NoneOf(sent, b) ==> NoneOf(sent + [f], b)
  {
    OneMore(sent, f, b);
  }

  /** A burst begins; the one before it is cut short if it had a copy left. */
  lemma BurstBegins(c: Client, h: History, payload: string, now: Tick)
    requires BurstsTold(c, h) && |payload| < PAYLOAD_CAP
    ensures var h1 := CutShort(h, c.burst.active); BurstsTold(BurstBegun(c, payload, now), h1.(texts := h1.texts + [payload]))
  {
    var d := BurstBegun(c, payload, now);
    var h1 := CutShort(h, c.burst.active);
    var texts, no := h.texts + [payload], |h.texts| + 1;
    var f := Relay(c.hostMac, payload, no);
    assert d.sent == c.sent + [f];
    assert NoneOf(c.sent, no);
    forall b ensures Copies(d.sent, b) == Copies(c.sent, b) + (if b == no then 1 else 0) && (b > no ==> NoneOf(d.sent, b)) {
      CopyCounts(c.sent, f, b);
    }
    forall b | 1 <= b <= no ensures BurstIs(d.sent, d.burst, texts, h1.cut, b) {
      if b < no { assert BurstIs(c.sent, c.burst, h.texts, h.cut, b); }
    }
  }

  /** A poll sends the next copy of the burst under way, if it is due. */
  lemma PollSends(c: Client, h: History, now: Tick)
    requires BurstsTold(c, h)
    ensures BurstsTold(BurstPolled(c, now), h)
    ensures BurstPolled(c, now).burst.active <==> CopyLeft(c, now)
    ensures BurstPolled(c, now).pending == c.pending
  {
    if c.burst.active && !NotYet(now, c.burst.nextAtMs) {
      var d := BurstPolled(c, now);
      var no := |h.texts|;
      var f := Relay(c.hostMac, c.burst.payload, no);
      assert d.sent == c.sent + [f];
      forall b ensures Copies(d.sent, b) == Copies(c.sent, b) + (if b == no then 1 else 0) && (b > no ==> NoneOf(d.sent, b)) {
        CopyCounts(c.sent, f, b);
      }
      forall b | 1 <= b <= no ensures BurstIs(d.sent, d.burst, h.texts, h.cut, b) { assert BurstIs(c.sent, c.burst, h.texts, h.cut, b); }
    }
  }

  // ---------------------------------------------------------------- step by step

  lemma SendTold(c: Client, h: History, payload: string, burst3: bool, now: Tick, radioOk: bool)
    requires Told(c, h)
    ensures Told(SentToServer(c, payload, burst3, now, radioOk).client, Noted(h, c, Send(payload, burst3, now, radioOk)))
  {
    var d := SentToServer(c, payload, burst3, now, radioOk).client;
    if burst3 && |payload| < PAYLOAD_CAP {
      if Usable(c) { BurstBegins(c, h, payload, now); }
      else { OtherFrames(c, d, h); }
    } else {
      OtherFrames(c, d, h);
    }
  }

  lemma HandledTold(c: Client, h: History, pkt: Packet, now: Tick, t3: int, mono: int)
    requires Told(c, h)
    ensures Told(Handled(c, pkt, now, t3, mono), h)
  {
    OtherFrames(c, Handled(c, pkt, now, t3, mono), h);
  }

  /** The waiting trigger is relayed if the link is usable, and dropped after three seconds if not. */
  lemma PendingTold(c: Client, h: History, now: Tick)
    requires Told(c, h)
    ensures Told(PendingPolled(c, now),
                 if h.waiting == None then h
                 else if Usable(c) then
                   var h1 := CutShort(h, c.burst.active);
                   h1.(texts := h1.texts + [h.waiting.value.text], waiting := None)
                 else if Sub32(now, h.waiting.value.at) > 3000 then h.(waiting := None)
                 else h)
  {
    if c.pending.active {
      if Usable(c) { BurstBegins(c, h, c.pending.payload, now); }
      else { OtherFrames(c, PendingPolled(c, now), h); }
    }
  }

  lemma LossTold(c: Client, h: History)
    requires Told(c, h)
    ensures Told(HostLost(c), CutShort(h, c.burst.active)) && !Usable(HostLost(c))
  {
    var d, h' := HostLost(c), CutShort(h, c.burst.active);
    forall b | 1 <= b <= |h.texts| ensures BurstIs(d.sent, d.burst, h.texts, h'.cut, b) { assert BurstIs(c.sent, c.burst, h.texts, h.cut, b); }
  }

  /** Serving the sync and sweeping the channels touch no trigger. */
  lemma ServedTold(c: Client, h: History, now: Tick, monoPoll: int, monoStart: int)
    requires Told(c, h)
    ensures var d := SyncServed(c, now, monoPoll, monoStart);
            Told(d, h) && SameBursts(c, d) && d.haveHost == c.haveHost && d.roleCollision == c.roleCollision && d.hostUplinkUp == c.hostUplinkUp
  {
    var d := SyncPolled(c, now, monoPoll);
    PolledAdds(c, now, monoPoll);
    OtherFrames(c, d, h);
    StartedAdds(d, now, monoStart);
    OtherFrames(d, SyncStarted(d, now, monoStart), h);
  }

  predicate KeepsTriggers(c: Client, d: Client) {
    SameBursts(c, d) && Adds(c, d) && d.pending == c.pending
    && d.haveHost == c.haveHost && d.roleCollision == c.roleCollision && d.hostUplinkUp == c.hostUplinkUp
  }

  lemma PolledAdds(c: Client, now: Tick, mono: int)
    ensures KeepsTriggers(c, SyncPolled(c, now, mono))
  {
  }

  lemma StartedAdds(c: Client, now: Tick, mono: int)
    ensures KeepsTriggers(c, SyncStarted(c, now, mono))
  {
  }

  lemma UnlinkedRestTold(c: Client, h: History, now: Tick, monoPoll: int, monoStart: int)
    requires Told(c, h) && LinkSound(c) && !c.haveHost
    ensures Told(Rest(c, now, monoPoll, monoStart), Noted(h, c, LoopRest(now, monoPoll, monoStart)))
  {
    var d := Swept(c.(state := if c.roleCollision then Failed else Connecting), now);
    OtherFrames(c, d, h);
    PendingTold(d, h, now);
  }

  lemma LostRestTold(c: Client, h: History, now: Tick, monoPoll: int, monoStart: int)
    requires Told(c, h) && Lost(c, now)
    ensures Told(Rest(c, now, monoPoll, monoStart), Noted(h, c, LoopRest(now, monoPoll, monoStart)))
  {
    var c' := if Sub32(now, c.lastAnnounceRxMs) > ANNOUNCE_TIMEOUT_MS then c else c.(failStreak := 0);
    OtherFrames(c, c', h);
    LossTold(c', h);
    PendingTold(HostLost(c'), CutShort(h, c.burst.active), now);
  }

  lemma LinkedRestTold(c: Client, h: History, now: Tick, monoPoll: int, monoStart: int)
    requires Told(c, h) && c.haveHost && !Lost(c, now)
    ensures Told(Rest(c, now, monoPoll, monoStart), Noted(h, c, LoopRest(now, monoPoll, monoStart)))
  {
    var shown := c.(state := LinkedState(c));
    OtherFrames(c, shown, h);
    ServedTold(shown, h, now, monoPoll, monoStart);
    var d := SyncServed(shown, now, monoPoll, monoStart);
    ServedKeepsBursts(shown, now, monoPoll, monoStart);
    PollSends(d, h, now);
    PendingTold(BurstPolled(d, now), h, now);
  }

  lemma ServedKeepsBursts(c: Client, now: Tick, monoPoll: int, monoStart: int)
    ensures var d := SyncServed(c, now, monoPoll, monoStart); SameBursts(c, d) && d.pending == c.pending && d.haveHost == c.haveHost
  {
  }

  /** In every run: the bursts are those of the triggers handed over, in order; each goes out in its
      own words once, twice or three times, and three times exactly unless it had a copy left when
      the next one began or the link was lost, or has one left still; and a trigger waits exactly if
      it was handed over last of those the link could not take, and has not waited too long. */
  lemma {:induction false} BurstsAreTold(role: int, steps: seq<Step>)
    ensures Told(After(Begun(role), steps), HistoryOf(role, steps))
    decreases |steps|
  {
    if steps != [] {
      var k := |steps| - 1;
      var c, h := After(Begun(role), steps[..k]), HistoryOf(role, steps[..k]);
      BurstsAreTold(role, steps[..k]);
      LinkIsSound(role, steps[..k]);
      StepTold(c, h, steps[k]);
    }
  }

  lemma StepTold(c: Client, h: History, s: Step)
    requires Told(c, h) && LinkSound(c)
    ensures Told(Apply(c, s), Noted(h, c, s))
  {
    match s
    case Receive(pkt, now, t3, mono) => HandledTold(c, h, pkt, now, t3, mono);
    case LoopRest(now, monoPoll, monoStart) =>
      if !c.haveHost { UnlinkedRestTold(c, h, now, monoPoll, monoStart); }
      else if Lost(c, now) { LostRestTold(c, h, now, monoPoll, monoStart); }
      else { LinkedRestTold(c, h, now, monoPoll, monoStart); }
    case Send(payload, burst3, now, radioOk) => SendTold(c, h, payload, burst3, now, radioOk);
    case Reported(ok) => ReportTold(c, h, ok);
  }

  lemma ReportTold(c: Client, h: History, ok: bool)
    requires Told(c, h)
    ensures Told(Apply(c, Reported(ok)), h)
  {
    OtherFrames(c, Apply(c, Reported(ok)), h);
  }

  // ---------------------------------------------------------------- when a burst is complete

  /** A poll counts when it comes between 50 ms and 2^31 + 50 ms after the copy before, however the
      clock wraps; two such polls complete a burst, and nothing less does. */
  lemma TwoPollsComplete(c: Client, payload: string, t0: Tick, t1: Tick, t2: Tick)
    requires |payload| < PAYLOAD_CAP
    ensures var d := BurstPolled(BurstPolled(BurstBegun(c, payload, t0), t1), t2);
            !d.burst.active <==> 50 <= Sub32(t1, t0) < U32 / 2 + 50 && 50 <= Sub32(t2, t1) < U32 / 2 + 50
  {
    WB.GapIsElapsed(t0, t1);
    WB.GapIsElapsed(t1, t2);
    WB.GapIsElapsed(t0, t2);
  }

  /** On a link that lasts, the loop polls the burst. */
  lemma LoopPolls(c: Client, now: Tick, monoPoll: int, monoStart: int)
    requires c.haveHost && !Lost(c, now) && !c.pending.active
    ensures Rest(c, now, monoPoll, monoStart).burst == BurstPolled(c, now).burst
    ensures !Rest(c, now, monoPoll, monoStart).pending.active && Rest(c, now, monoPoll, monoStart).haveHost
  {
    var shown := c.(state := LinkedState(c));
    ServedKeepsBursts(shown, now, monoPoll, monoStart);
    PolledAgain(SyncServed(shown, now, monoPoll, monoStart), c, now);
  }

  lemma PolledAgain(d: Client, c: Client, now: Tick)
    requires SameBursts(c, d) && !d.pending.active && d.haveHost
    ensures var e := PendingPolled(BurstPolled(d, now), now); e.burst == BurstPolled(c, now).burst && !e.pending.active && e.haveHost
  {
  }

  /** So on a usable link that lasts, a trigger is out three times after two loops exactly when each
      comes at least 50 ms (and less than 2^31 + 50 ms) after the copy before. */
  lemma TwoLoopsComplete(c: Client, payload: string, radioOk: bool, t0: Tick, t1: Tick, t2: Tick, mono: int, c1: Client, c2: Client)
    requires |payload| < PAYLOAD_CAP && Usable(c) && !c.pending.active
    requires c1 == Rest(SentToServer(c, payload, true, t0, radioOk).client, t1, mono, mono)
    requires !Lost(SentToServer(c, payload, true, t0, radioOk).client, t1) && !Lost(c1, t2)
    requires c2 == Rest(c1, t2, mono, mono)
    ensures !c2.burst.active <==> 50 <= Sub32(t1, t0) < U32 / 2 + 50 && 50 <= Sub32(t2, t1) < U32 / 2 + 50
  {
    var c0 := SentToServer(c, payload, true, t0, radioOk).client;
    LoopPolls(c0, t1, mono, mono);
    LoopPolls(c1, t2, mono, mono);
    TwoPollsComplete(c, payload, t0, t1, t2);
  }

  // ---------------------------------------------------------------- heartbeats and answers

  /** The heartbeats sent, in order. */
  function Beats(sent: seq<Frame>): (fs: seq<Frame>)
    decreases |sent|
  {
    if sent == [] then []
    else Beats(sent[..|sent| - 1]) + if IsCopy(sent[|sent| - 1], 0) then [sent[|sent| - 1]] else []
  }

  lemma OneMoreBeat(sent: seq<Frame>, f: Frame)
    ensures Beats(sent + [f]) == Beats(sent) + if IsCopy(f, 0) then [f] else []
  {
    assert (sent + [f])[..|sent|] == sent;
  }

  /** Frames are only ever added, and none of those added is a heartbeat. */
  predicate BeatsNot(c: Client, d: Client) {
    d.sent == c.sent || (|d.sent| == |c.sent| + 1 && d.sent[..|c.sent|] == c.sent && !IsCopy(d.sent[|c.sent|], 0))
  }

  lemma NoBeat(c: Client, d: Client)
    requires BeatsNot(c, d)
    ensures Beats(d.sent) == Beats(c.sent)
  {
    if d.sent != c.sent {
      assert d.sent == c.sent + [d.sent[|c.sent|]];
      OneMoreBeat(c.sent, d.sent[|c.sent|]);
    }
  }

  lemma ServedBeatsNot(c: Client, now: Tick, monoPoll: int, monoStart: int)
    ensures Beats(SyncServed(c, now, monoPoll, monoStart).sent) == Beats(c.sent)
  {
    var d := SyncPolled(c, now, monoPoll);
    NoBeat(c, d);
    NoBeat(d, SyncStarted(d, now, monoStart));
  }

  lemma RelayingBeatsNot(c: Client, now: Tick)
    requires c.bursts >= 0 && (c.burst.active ==> c.bursts >= 1)
    ensures Beats(BurstPolled(c, now).sent) == Beats(c.sent) && Beats(PendingPolled(c, now).sent) == Beats(c.sent)
    ensures BurstPolled(c, now).bursts == c.bursts
  {
    NoBeat(c, BurstPolled(c, now));
    NoBeat(c, PendingPolled(c, now));
  }

  lemma RestBeatsNot(c: Client, h: History, now: Tick, monoPoll: int, monoStart: int)
    requires Told(c, h)
    ensures Beats(Rest(c, now, monoPoll, monoStart).sent) == Beats(c.sent)
  {
    if !c.haveHost {
      var shown := c.(state := if c.roleCollision then Failed else Connecting);
      var d := Swept(shown, now);
      NoBeat(shown, d);
      RelayingBeatsNot(d, now);
    } else if Lost(c, now) {
      RelayingBeatsNot(HostLost(c), now);
      RelayingBeatsNot(HostLost(c.(failStreak := 0)), now);
    } else {
      var shown := c.(state := LinkedState(c));
      var d := SyncServed(shown, now, monoPoll, monoStart);
      ServedBeatsNot(shown, now, monoPoll, monoStart);
      ServedKeepsBursts(shown, now, monoPoll, monoStart);
      RelayingBeatsNot(d, now);
      RelayingBeatsNot(BurstPolled(d, now), now);
    }
  }

  /** In every reachable state, a step sends a heartbeat exactly when it is handed one on a usable
      link, and hands back success exactly when the radio took it; a trigger is refused only for
      its length. */
  lemma BeatsAreTold(c: Client, h: History, s: Step)
    requires Told(c, h)
    ensures Beats(Apply(c, s).sent) == Beats(c.sent) +
              if s.Send? && !s.burst3 && Usable(c) && |s.payload| < 250 then [Relay(c.hostMac, s.payload, 0)] else []
    ensures s.Send? ==> (SentToServer(c, s.payload, s.burst3, s.now, s.radioOk).ok <==>
                           if s.burst3 then |s.payload| < 192 else Usable(c) && |s.payload| < 250 && s.radioOk)
  {
    assert Beats(c.sent) + [] == Beats(c.sent);
    match s
    case Receive(pkt, now, t3, mono) => NoBeat(c, Handled(c, pkt, now, t3, mono));
    case LoopRest(now, monoPoll, monoStart) => RestBeatsNot(c, h, now, monoPoll, monoStart);
    case Send(payload, burst3, now, radioOk) =>
      if burst3 { NoBeat(c, Apply(c, s)); }
      OneMoreBeat(c.sent, Relay(c.hostMac, payload, 0));
    case Reported(ok) =>
  }
}
