/** What holds over every run of the ESP-NOW client: the life of a sync, the copies of a trigger,
    and how far off an edge's wall time can be. */
module EspNowRuns {
  import opened Common
  import opened EspNow
  import TB = TimeBase
  import OF = OffsetFilter

  // ---------------------------------------------------------------- the part of the state a sync touches

  datatype SyncView = SyncView(clock: TB.Clock, filter: OF.Best, phase: Phase, done: int, last: Tick,
                               log: seq<SyncEvent>, resyncs: nat)

  function View(c: Client): (v: SyncView) {
    SyncView(c.clock, c.filter, c.phase, c.exchangesDone, c.lastSyncStartMs, c.syncs, c.resyncs)
  }

  lemma RelayingTouchesNoSync(c: Client, now: Tick, payload: string, burst3: bool, radioOk: bool)
    ensures View(BurstPolled(c, now)) == View(c)
    ensures View(PendingPolled(c, now)) == View(c)
    ensures View(Swept(c, now)) == View(c)
    ensures View(SentToServer(c, payload, burst3, now, radioOk).client) == View(c)
  {
  }

  /** Where `loop` gives up its host, and the state it polls the sync in otherwise. */
  function Lost(c: Client, now: Tick): (b: bool) {
    c.haveHost && (Sub32(now, c.lastAnnounceRxMs) > ANNOUNCE_TIMEOUT_MS || c.failStreak >= SEND_FAIL_STREAK_LIMIT)
  }

  lemma RestInViews(c: Client, now: Tick, monoPoll: int, monoStart: int)
    ensures var r := Rest(c, now, monoPoll, monoStart);
            && (!c.haveHost ==> View(r) == View(c))
            && (Lost(c, now) ==> View(r) == View(HostLost(c)))
            && (c.haveHost && !Lost(c, now) ==>
                  View(r) == View(SyncServed(c.(state := LinkedState(c)), now, monoPoll, monoStart)))
  {
    if !c.haveHost {
      var d := Swept(c.(state := if c.roleCollision then Failed else Connecting), now);
      RelayingTouchesNoSync(c.(state := if c.roleCollision then Failed else Connecting), now, "", false, false);
      RelayingTouchesNoSync(d, now, "", false, false);
    } else if Lost(c, now) {
      RelayingTouchesNoSync(HostLost(c), now, "", false, false);
      RelayingTouchesNoSync(HostLost(c.(failStreak := 0)), now, "", false, false);
    } else {
      var d := SyncServed(c.(state := LinkedState(c)), now, monoPoll, monoStart);
      RelayingTouchesNoSync(d, now, "", false, false);
      RelayingTouchesNoSync(BurstPolled(d, now), now, "", false, false);
    }
  }

  // ---------------------------------------------------------------- the life of a sync

  /** Just before event i, a sync that began d advances ago is under way. */
  ghost predicate Open(log: seq<SyncEvent>, i: int, d: int) {
    && 0 <= d < i <= |log| && log[i - 1 - d].Started?
    && forall k :: i - d <= k < i ==> log[k] == Advanced
  }

  ghost predicate OpenBelowFive(log: seq<SyncEvent>, i: int) {
    exists d :: 0 <= d < SYNC_EXCHANGE_COUNT && Open(log, i, d)
  }

  /** A sync begins first of all, after a loss of the link, or at least five minutes after the begin
      of the finished one before it, unless that one began at tick 0; it finishes with its fifth
      advance; and the link is lost between syncs or before the fifth advance of one. */
  ghost predicate EventOk(log: seq<SyncEvent>, i: int)
    requires 0 <= i < |log|
  {
    match log[i]
    case Started(at) =>
      || i == 0
      || log[i - 1] == LinkLost
      || (log[i - 1] == Finished && Open(log, i - 1, SYNC_EXCHANGE_COUNT)
          && (log[i - 7].at == 0 || Sub32(at, log[i - 7].at) >= RESYNC_INTERVAL_MS))
    case Advanced => OpenBelowFive(log, i)
    case Finished => Open(log, i, SYNC_EXCHANGE_COUNT)
    case LinkLost => i == 0 || log[i - 1] == LinkLost || log[i - 1] == Finished || OpenBelowFive(log, i)
  }

  ghost predicate LogOk(log: seq<SyncEvent>) {
    forall i :: 0 <= i < |log| ==> EventOk(log, i)
  }

  ghost predicate SyncOk(v: SyncView) {
    && LogOk(v.log)
    && (v.phase == Exchanging ==> v.done < SYNC_EXCHANGE_COUNT && Open(v.log, |v.log|, v.done) && v.log[|v.log| - 1 - v.done].at == v.last)
    && (v.phase == Idle ==>
          || (v.last == 0 && (v.log == [] || v.log[|v.log| - 1] == LinkLost))
          || (|v.log| >= 7 && v.log[|v.log| - 1] == Finished && Open(v.log, |v.log| - 1, SYNC_EXCHANGE_COUNT)
              && v.log[|v.log| - 7].at == v.last))
  }

  lemma OpenStays(log: seq<SyncEvent>, e: SyncEvent, i: int, d: int)
    requires i <= |log|
    ensures Open(log + [e], i, d) <==> Open(log, i, d)
  {
    if Open(log + [e], i, d) {
      assert forall k :: i - 1 - d <= k < i ==> (log + [e])[k] == log[k];
    }
    if Open(log, i, d) {
      assert forall k :: i - 1 - d <= k < i ==> (log + [e])[k] == log[k];
    }
  }

  lemma EventStays(log: seq<SyncEvent>, e: SyncEvent, i: int)
    requires 0 <= i < |log| && EventOk(log, i)
    ensures EventOk(log + [e], i)
  {
    assert (log + [e])[i] == log[i];
    OpenStays(log, e, i, SYNC_EXCHANGE_COUNT);
    OpenStays(log, e, i - 1, SYNC_EXCHANGE_COUNT);
    if OpenBelowFive(log, i) {
      var d :| 0 <= d < SYNC_EXCHANGE_COUNT && Open(log, i, d);
      OpenStays(log, e, i, d);
    }
  }

  lemma Appended(log: seq<SyncEvent>, e: SyncEvent)
    requires LogOk(log) && EventOk(log + [e], |log|)
    ensures LogOk(log + [e])
  {
    forall i | 0 <= i < |log + [e]| ensures EventOk(log + [e], i) {
      if i < |log| { EventStays(log, e, i); }
    }
  }

  lemma StartedKeepsSync(c: Client, now: Tick, mono: int)
    requires SyncOk(View(c)) && SyncDue(c, now)
    ensures SyncOk(View(SyncStarted(c, now, mono)))
  {
    var log, e := c.syncs, Started(now);
    OpenStays(log, e, |log| - 1, SYNC_EXCHANGE_COUNT);
    Appended(log, e);
  }

  lemma FinishedKeepsSync(c: Client, mono: int)
    requires LogOk(c.syncs) && Open(c.syncs, |c.syncs|, SYNC_EXCHANGE_COUNT)
    requires c.syncs[|c.syncs| - 6].at == c.lastSyncStartMs
    ensures SyncOk(View(SyncFinished(c, mono)))
  {
    var log := c.syncs;
    OpenStays(log, Finished, |log|, SYNC_EXCHANGE_COUNT);
    Appended(log, Finished);
    assert SyncFinished(c, mono).syncs == log + [Finished];
  }

  lemma ExchangeOverKeepsSync(c: Client, now: Tick, mono: int)
    requires SyncOk(View(c)) && c.phase == Exchanging
    ensures SyncOk(View(ExchangeOver(c, now, mono)))
  {
    var log := c.syncs;
    OpenStays(log, Advanced, |log|, c.exchangesDone);
    assert OpenBelowFive(log + [Advanced], |log|);
    Appended(log, Advanced);
    var d := c.(exchangesDone := c.exchangesDone + 1, syncs := log + [Advanced]);
    assert Open(d.syncs, |d.syncs|, d.exchangesDone);
    if d.exchangesDone >= SYNC_EXCHANGE_COUNT { FinishedKeepsSync(d, mono); }
  }

  lemma ServedKeepsSync(c: Client, now: Tick, monoPoll: int, monoStart: int)
    requires SyncOk(View(c))
    ensures SyncOk(View(SyncServed(c, now, monoPoll, monoStart)))
  {
    if c.phase == Exchanging { ExchangeOverKeepsSync(c, now, monoPoll); }
    var d := SyncPolled(c, now, monoPoll);
    if SyncDue(d, now) { StartedKeepsSync(d, now, monoStart); }
  }

  lemma LostKeepsSync(c: Client)
    requires SyncOk(View(c))
    ensures SyncOk(View(HostLost(c)))
  {
    var log := c.syncs;
    if c.phase == Exchanging {
      OpenStays(log, LinkLost, |log|, c.exchangesDone);
      assert OpenBelowFive(log + [LinkLost], |log|);
    }
    Appended(log, LinkLost);
  }

  lemma HandledKeepsSync(c: Client, pkt: Packet, now: Tick, t3: int, mono: int)
    requires SyncOk(View(c)) && LinkSound(c)
    ensures SyncOk(View(Handled(c, pkt, now, t3, mono)))
  {
    if pkt.TimeResp? && c.phase == Exchanging {
      ExchangeOverKeepsSync(c.(filter := OF.Added(c.filter, OF.Sample(pkt.t1, pkt.t2rx, pkt.t2tx, t3))), now, mono);
    }
  }

  lemma ApplyKeepsSync(c: Client, s: Step)
    requires SyncOk(View(c)) && LinkSound(c)
    ensures SyncOk(View(Apply(c, s)))
  {
    match s
    case Receive(pkt, now, t3, mono) => HandledKeepsSync(c, pkt, now, t3, mono);
    case LoopRest(now, monoPoll, monoStart) =>
      RestInViews(c, now, monoPoll, monoStart);
      if Lost(c, now) { LostKeepsSync(c); }
      else if c.haveHost { ServedKeepsSync(c.(state := LinkedState(c)), now, monoPoll, monoStart); }
    case Send(payload, burst3, now, radioOk) => RelayingTouchesNoSync(c, now, payload, burst3, radioOk);
    case Reported(ok) =>
  }

  /** In every run, each sync ends with exactly its fifth reply or timeout or is aborted by the loss
      of the link before that, and no two begin less than five minutes apart unless the link was
      lost in between or the first began at tick 0. */
  lemma {:induction false} SyncsEndWithinFive(role: int, steps: seq<Step>)
    ensures SyncOk(View(After(Begun(role), steps)))
    decreases |steps|
  {
    if steps != [] {
      SyncsEndWithinFive(role, steps[..|steps| - 1]);
      LinkIsSound(role, steps[..|steps| - 1]);
      ApplyKeepsSync(After(Begun(role), steps[..|steps| - 1]), steps[|steps| - 1]);
    }
  }

  /** The last sync of a run finished, and it began at tick `start`. */
  ghost predicate FinishedSyncFrom(c: Client, start: Tick) {
    var n := |c.syncs|;
    n >= 7 && c.syncs[n - 1] == Finished && c.syncs[n - 7] == Started(start)
  }

  lemma RestsSince(c: Client, start: Tick)
    requires SyncOk(View(c)) && FinishedSyncFrom(c, start)
    ensures c.phase == Idle && c.lastSyncStartMs == start
  {
  }

  lemma RestSyncs(c: Client, now: Tick, monoPoll: int, monoStart: int)
    requires c.phase == Idle && Usable(c) && !Lost(c, now)
    ensures Rest(c, now, monoPoll, monoStart).phase == Exchanging <==> SyncDue(c, now)
  {
    RestInViews(c, now, monoPoll, monoStart);
  }

  /** 0 also means "never synced", so a sync begun at tick 0 of the wrapping clock is followed by
      another one at once: in every run, exactly then is a link that stays usable synced again
      early. */
  lemma NextSyncExactly(role: int, steps: seq<Step>, c: Client, start: Tick, now: Tick, monoPoll: int, monoStart: int)
    requires c == After(Begun(role), steps) && FinishedSyncFrom(c, start)
    requires Usable(c) && !Lost(c, now)
    ensures Rest(c, now, monoPoll, monoStart).phase == Exchanging <==> start == 0 || Sub32(now, start) >= RESYNC_INTERVAL_MS
  {
    SyncsEndWithinFive(role, steps);
    RestsSince(c, start);
    RestSyncs(c, now, monoPoll, monoStart);
  }

  // ---------------------------------------------------------------- the copies of a trigger

  predicate IsCopy(f: Frame, burst: int) {
    f.Relay? && f.burst == burst
  }

  function Copies(sent: seq<Frame>, burst: int): (n: nat)
    decreases |sent|
  {
    if sent == [] then 0
    else Copies(sent[..|sent| - 1], burst) + if IsCopy(sent[|sent| - 1], burst) then 1 else 0
  }

  lemma OneMore(sent: seq<Frame>, f: Frame, burst: int)
    ensures Copies(sent + [f], burst) == Copies(sent, burst) + if IsCopy(f, burst) then 1 else 0
  {
    assert (sent + [f])[..|sent|] == sent;
  }

  /** All copies of a burst say the same to the same host. */
  ghost predicate Alike(sent: seq<Frame>, burst: int, to: int, payload: string) {
    forall i :: 0 <= i < |sent| && IsCopy(sent[i], burst) ==> sent[i].to == to && sent[i].payload == payload
  }

  ghost predicate AlikeSomehow(sent: seq<Frame>, burst: int) {
    exists to, payload :: Alike(sent, burst, to, payload)
  }

  ghost predicate BurstsOk(sent: seq<Frame>, bursts: int) {
    && bursts >= 0
    && (forall i :: 0 <= i < |sent| && sent[i].Relay? ==> 0 <= sent[i].burst <= bursts)
    && (forall b :: 1 <= b ==> Copies(sent, b) <= 3)
    && (forall b :: 1 <= b ==> AlikeSomehow(sent, b))
  }

  ghost predicate CopiesOk(c: Client) {
    && BurstsOk(c.sent, c.bursts)
    && (c.pending.active ==> |c.pending.payload| < PAYLOAD_CAP)
    && (c.burst.active ==>
          && c.haveHost && c.bursts >= 1 && 1 <= c.burst.remaining <= 2 && |c.burst.payload| < PAYLOAD_CAP
          && Copies(c.sent, c.bursts) + c.burst.remaining == 3
          && Alike(c.sent, c.bursts, c.hostMac, c.burst.payload))
  }

  lemma {:induction false} NoneYet(sent: seq<Frame>, bursts: int, b: int)
    requires BurstsOk(sent, bursts) && b > bursts
    ensures Copies(sent, b) == 0 && (forall i :: 0 <= i < |sent| ==> !IsCopy(sent[i], b))
  {
    NoCopies(sent, b);
  }

  lemma {:induction false} NoCopies(sent: seq<Frame>, b: int)
    requires forall i :: 0 <= i < |sent| ==> !IsCopy(sent[i], b)
    ensures Copies(sent, b) == 0
    decreases |sent|
  {
    if sent != [] { NoCopies(sent[..|sent| - 1], b); }
  }

  /** Any frame may follow that is not a copy too many or a copy unlike the others. */
  lemma FrameFollows(sent: seq<Frame>, bursts: int, f: Frame)
    requires BurstsOk(sent, bursts)
    requires f.Relay? ==> 0 <= f.burst <= bursts
    requires f.Relay? && f.burst >= 1 ==> Copies(sent, f.burst) <= 2 && Alike(sent, f.burst, f.to, f.payload)
    ensures BurstsOk(sent + [f], bursts)
  {
    forall b | 1 <= b ensures Copies(sent + [f], b) <= 3 { OneMore(sent, f, b); }
    forall b | 1 <= b ensures AlikeSomehow(sent + [f], b) {
      if IsCopy(f, b) {
        assert Alike(sent + [f], b, f.to, f.payload);
      } else {
        assert AlikeSomehow(sent, b);
        var to, payload :| Alike(sent, b, to, payload);
        assert Alike(sent + [f], b, to, payload);
      }
    }
  }

  lemma OtherFrameKeepsCopies(c: Client, d: Client, f: Frame)
    requires CopiesOk(c) && (f.Relay? ==> f.burst == 0)
    requires d.sent == c.sent + [f] && d.bursts == c.bursts && d.burst == c.burst && d.pending == c.pending
    requires d.hostMac == c.hostMac && d.haveHost == c.haveHost
    ensures CopiesOk(d)
  {
    FrameFollows(c.sent, c.bursts, f);
    OneMore(c.sent, f, c.bursts);
  }

  lemma BegunKeepsCopies(c: Client, payload: string, now: Tick)
    requires CopiesOk(c) && |payload| < PAYLOAD_CAP && c.haveHost
    ensures CopiesOk(BurstBegun(c, payload, now))
  {
    var no := c.bursts + 1;
    var f := Relay(c.hostMac, payload, no);
    NoneYet(c.sent, c.bursts, no);
    assert BurstsOk(c.sent, no);
    FrameFollows(c.sent, no, f);
    OneMore(c.sent, f, no);
    assert BurstBegun(c, payload, now).sent == c.sent + [f];
  }

  lemma BurstPolledKeepsCopies(c: Client, now: Tick)
    requires CopiesOk(c)
    ensures CopiesOk(BurstPolled(c, now))
  {
    if c.burst.active && !NotYet(now, c.burst.nextAtMs) {
      var f := Relay(c.hostMac, c.burst.payload, c.bursts);
      FrameFollows(c.sent, c.bursts, f);
      OneMore(c.sent, f, c.bursts);
      assert BurstPolled(c, now).sent == c.sent + [f];
    }
  }

  lemma PendingPolledKeepsCopies(c: Client, now: Tick)
    requires CopiesOk(c)
    ensures CopiesOk(PendingPolled(c, now))
  {
    if c.pending.active && Usable(c) { BegunKeepsCopies(c, c.pending.payload, now); }
  }

  lemma SendKeepsCopies(c: Client, payload: string, burst3: bool, now: Tick, radioOk: bool)
    requires CopiesOk(c)
    ensures CopiesOk(SentToServer(c, payload, burst3, now, radioOk).client)
  {
    if Usable(c) {
      if burst3 && |payload| < PAYLOAD_CAP { BegunKeepsCopies(c, payload, now); }
      if !burst3 && 1 + |payload| <= FRAME_CAP { OtherFrameKeepsCopies(c, Relayed(c, payload, 0), Relay(c.hostMac, payload, 0)); }
    }
  }

  lemma StartedKeepsCopies(c: Client, now: Tick, mono: int)
    requires CopiesOk(c)
    ensures CopiesOk(SyncStarted(c, now, mono))
  {
    OtherFrameKeepsCopies(c, SyncStarted(c, now, mono), TimeReq(c.hostMac, mono));
  }

  lemma ExchangeOverKeepsCopies(c: Client, now: Tick, mono: int)
    requires CopiesOk(c)
    ensures CopiesOk(ExchangeOver(c, now, mono))
  {
    if c.exchangesDone + 1 < SYNC_EXCHANGE_COUNT {
      OtherFrameKeepsCopies(c, ExchangeOver(c, now, mono), TimeReq(c.hostMac, mono));
    }
  }

  lemma ServedKeepsCopies(c: Client, now: Tick, monoPoll: int, monoStart: int)
    requires CopiesOk(c)
    ensures CopiesOk(SyncServed(c, now, monoPoll, monoStart))
  {
    ExchangeOverKeepsCopies(c, now, monoPoll);
    StartedKeepsCopies(SyncPolled(c, now, monoPoll), now, monoStart);
  }

  lemma RestKeepsCopies(c: Client, now: Tick, monoPoll: int, monoStart: int)
    requires CopiesOk(c) && LinkSound(c)
    ensures CopiesOk(Rest(c, now, monoPoll, monoStart))
  {
    if !c.haveHost {
      var shown := c.(state := if c.roleCollision then Failed else Connecting);
      var d := Swept(shown, now);
      if d.sent != c.sent { OtherFrameKeepsCopies(shown, d, Discover); }
      PendingPolledKeepsCopies(d, now);
    } else if Lost(c, now) {
      PendingPolledKeepsCopies(HostLost(c), now);
      PendingPolledKeepsCopies(HostLost(c.(failStreak := 0)), now);
    } else {
      var shown := c.(state := LinkedState(c));
      ServedKeepsCopies(shown, now, monoPoll, monoStart);
      var d := SyncServed(shown, now, monoPoll, monoStart);
      BurstPolledKeepsCopies(d, now);
      PendingPolledKeepsCopies(BurstPolled(d, now), now);
    }
  }

  lemma HandledKeepsCopies(c: Client, pkt: Packet, now: Tick, t3: int, mono: int)
    requires CopiesOk(c)
    ensures CopiesOk(Handled(c, pkt, now, t3, mono))
  {
    if pkt.TimeResp? {
      ExchangeOverKeepsCopies(c.(filter := OF.Added(c.filter, OF.Sample(pkt.t1, pkt.t2rx, pkt.t2tx, t3))), now, mono);
    }
  }

  /** In every run, a trigger is relayed at most three times, each time with the same words to the
      same host: a burst cut off by the loss of the link is never finished toward the next host. */
  lemma {:induction false} CopiesGoTogether(role: int, steps: seq<Step>)
    ensures CopiesOk(After(Begun(role), steps))
    decreases |steps|
  {
    if steps == [] {
      forall b | 1 <= b ensures Copies([], b) <= 3 && AlikeSomehow([], b) { assert Alike([], b, 0, ""); }
    } else {
      var c, s := After(Begun(role), steps[..|steps| - 1]), steps[|steps| - 1];
      CopiesGoTogether(role, steps[..|steps| - 1]);
      LinkIsSound(role, steps[..|steps| - 1]);
      match s
      case Receive(pkt, now, t3, mono) => HandledKeepsCopies(c, pkt, now, t3, mono);
      case LoopRest(now, monoPoll, monoStart) => RestKeepsCopies(c, now, monoPoll, monoStart);
      case Send(payload, burst3, now, radioOk) => SendKeepsCopies(c, payload, burst3, now, radioOk);
      case Reported(ok) =>
    }
  }

  // ---------------------------------------------------------------- how good the clock is

  const SLACK: int := 10_000

  /** A time reply that the client takes from its host answers a request it sent, `theta` being how
      far the host's wall clock is ahead of the client's microsecond clock. */
  ghost predicate Honest(theta: int, c: Client, s: Step) {
    s.Receive? && s.pkt.TimeResp? && c.haveHost && s.pkt.mac == c.hostMac ==>
      OF.IsGenuine(theta, OF.Sample(s.pkt.t1, s.pkt.t2rx, s.pkt.t2tx, s.t3))
  }

  ghost predicate HonestRun(theta: int, role: int, steps: seq<Step>)
    decreases |steps|
  {
    steps == [] ||
    (HonestRun(theta, role, steps[..|steps| - 1]) && Honest(theta, After(Begun(role), steps[..|steps| - 1]), steps[|steps| - 1]))
  }

  ghost predicate ClockOk(theta: int, v: SyncView) {
    && OF.Accurate(theta, v.filter)
    && (v.clock.synced ==> TB.Near(v.clock, theta, SLACK, v.resyncs))
  }

  lemma FinishedKeepsClock(theta: int, c: Client, mono: int)
    requires ClockOk(theta, View(c))
    ensures ClockOk(theta, View(SyncFinished(c, mono)))
  {
    if c.filter.have {
      var wall := mono + c.filter.offset;
      assert TB.Abs(wall - (mono + theta)) <= SLACK;
      if c.clock.synced { TB.ResyncedIsNear(c.clock, theta, SLACK, c.resyncs, wall, mono); }
      else { TB.AnchoredIsNear(theta, SLACK, wall, mono); }
    }
  }

  lemma ExchangeOverKeepsClock(theta: int, c: Client, now: Tick, mono: int)
    requires ClockOk(theta, View(c))
    ensures ClockOk(theta, View(ExchangeOver(c, now, mono)))
  {
    var d := c.(exchangesDone := c.exchangesDone + 1, syncs := c.syncs + [Advanced]);
    assert ClockOk(theta, View(d));
    FinishedKeepsClock(theta, d, mono);
  }

  lemma ApplyKeepsClock(theta: int, c: Client, s: Step)
    requires ClockOk(theta, View(c)) && Honest(theta, c, s)
    ensures ClockOk(theta, View(Apply(c, s)))
  {
    match s
    case Receive(pkt, now, t3, mono) =>
      if pkt.TimeResp? && c.haveHost && pkt.mac == c.hostMac {
        var sample := OF.Sample(pkt.t1, pkt.t2rx, pkt.t2tx, t3);
        OF.AddedIsAccurate(theta, c.filter, sample);
        ExchangeOverKeepsClock(theta, c.(filter := OF.Added(c.filter, sample)), now, mono);
      }
    case LoopRest(now, monoPoll, monoStart) =>
      RestInViews(c, now, monoPoll, monoStart);
      if c.haveHost && !Lost(c, now) { ExchangeOverKeepsClock(theta, c.(state := LinkedState(c)), now, monoPoll); }
    case Send(payload, burst3, now, radioOk) => RelayingTouchesNoSync(c, now, payload, burst3, radioOk);
    case Reported(ok) =>
  }

  lemma {:induction false} ClockStaysOk(theta: int, role: int, steps: seq<Step>)
    requires HonestRun(theta, role, steps)
    ensures ClockOk(theta, View(After(Begun(role), steps)))
    decreases |steps|
  {
    if steps != [] {
      ClockStaysOk(theta, role, steps[..|steps| - 1]);
      ApplyKeepsClock(theta, After(Begun(role), steps[..|steps| - 1]), steps[|steps| - 1]);
    }
  }

  /** An edge at m is stamped within Worst(n) times 10 ms of the truth, n resyncs after the anchor. */
  ghost predicate StampedWell(v: SyncView, theta: int, m: int) {
    v.clock.synced ==> TB.Abs(TB.WallAt(v.clock, m) - (m + theta)) <= TB.Worst(v.resyncs) * SLACK
  }

  lemma ClockReads(theta: int, v: SyncView, m: int)
    requires ClockOk(theta, v)
    ensures StampedWell(v, theta, m)
  {
    if v.clock.synced { TB.NearReads(v.clock, theta, SLACK, v.resyncs, m); }
  }

  /** In every run whose host answers honestly, whatever replies are lost, late, repeated or
      reordered, an edge at m is stamped within 10 ms of the truth until the first resync, and
      within Worst(n) times 10 ms after n of them. */
  lemma EdgesAreStampedWithin(theta: int, role: int, steps: seq<Step>, m: int)
    requires HonestRun(theta, role, steps)
    ensures StampedWell(View(After(Begun(role), steps)), theta, m)
  {
    ClockStaysOk(theta, role, steps);
    ClockReads(theta, View(After(Begun(role), steps)), m);
  }
}
