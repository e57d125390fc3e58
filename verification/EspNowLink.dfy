/** The ESP-NOW client's link, requests and sweep (firmware/src/uplink_espnow.cpp), told from what it
    receives and when its loop runs: the link is a machine of its own, and every request for the
    time is asked when, and only when, one is due. */
module EspNowLink {
  import opened Common
  import opened EspNow
  import opened EspNowRuns
  import OF = OffsetFilter
  import TB = TimeBase

  // ---------------------------------------------------------------- the link

  datatype Host = NoHost | Host(mac: int, uplinkUp: bool, heard: Tick, channel: int, rssi: int)

  /** `fails` counts the sends reported failed since the last one that was not. */
  datatype Link = Link(host: Host, collision: bool, fails: int, lockoutMs: int)

  const Alone: Link := Link(NoHost, false, 0, 10_000)

  function LinkOf(c: Client): (l: Link) {
    Link(if c.haveHost then Host(c.hostMac, c.hostUplinkUp, c.lastAnnounceRxMs, c.hostChannel, c.rssi) else NoHost,
         c.roleCollision, c.failStreak, c.lockoutMs)
  }

  /** The frame is one to listen to. */
  predicate Listens(l: Link, pkt: Packet) {
    if l.host.NoHost? then pkt.Announce? else pkt.mac == l.host.mac
  }

  /** A host that has not been heard for more than ten seconds, or that five sends in a row did not
      reach, is given up. */
  predicate GivesUp(l: Link, now: Tick) {
    l.host.Host? && (Sub32(now, l.host.heard) > 10_000 || l.fails >= 5)
  }

  function Heard(l: Link, role: int, pkt: Packet, now: Tick): (l': Link) {
    match pkt
    case Announce(mac, rssi, channel, hostRole, up) =>
      if hostRole == role then l.(collision := true)
      else Link(Host(mac, up, now, channel, rssi), false, if l.host.NoHost? then 0 else l.fails, l.lockoutMs)
    case Config(_, lockout) => if lockout.Some? then l.(lockoutMs := lockout.value) else l
    case _ => l
  }

  function Linked(l: Link, role: int, s: Step): (l': Link) {
    match s
    case Receive(pkt, now, _, _) => if Listens(l, pkt) then Heard(l, role, pkt, now) else l
    case LoopRest(now, _, _) =>
      if !GivesUp(l, now) then l
      else Link(NoHost, false, if Sub32(now, l.host.heard) > 10_000 then l.fails else 0, l.lockoutMs)
    case Send(_, _, _, _) => l
    case Reported(ok) => l.(fails := if ok then 0 else (l.fails + 1) % U32)
  }

  function LinkAfter(role: int, steps: seq<Step>): (l: Link)
    decreases |steps|
  {
    if steps == [] then Alone else Linked(LinkAfter(role, steps[..|steps| - 1]), role, steps[|steps| - 1])
  }

  /** What serving a sync and relaying leave alone. */
  predicate SameLink(c: Client, d: Client) {
    LinkOf(d) == LinkOf(c) && d.role == c.role
  }

  lemma ExchangeKeepsLinkFields(c: Client, now: Tick, mono: int)
    ensures SameLink(c, ExchangeOver(c, now, mono)) && SameLink(c, SyncStarted(c, now, mono))
  {
  }

  lemma SyncKeepsLinkFields(c: Client, now: Tick, monoPoll: int, monoStart: int)
    ensures SameLink(c, SyncServed(c, now, monoPoll, monoStart))
    ensures SameLink(c, ExchangeOver(c, now, monoPoll))
  {
    ExchangeKeepsLinkFields(c, now, monoPoll);
    ExchangeKeepsLinkFields(SyncPolled(c, now, monoPoll), now, monoStart);
  }

  lemma RelayingKeepsLinkFields(c: Client, now: Tick, payload: string, burst3: bool, radioOk: bool)
    ensures SameLink(c, BurstPolled(c, now)) && SameLink(c, PendingPolled(c, now)) && SameLink(c, Swept(c, now))
    ensures SameLink(c, SentToServer(c, payload, burst3, now, radioOk).client)
  {
  }

  lemma RestLinks(c: Client, now: Tick, monoPoll: int, monoStart: int)
    ensures LinkOf(Rest(c, now, monoPoll, monoStart)) == Linked(LinkOf(c), c.role, LoopRest(now, monoPoll, monoStart))
    ensures Rest(c, now, monoPoll, monoStart).role == c.role
  {
    if !c.haveHost {
      var shown := c.(state := if c.roleCollision then Failed else Connecting);
      RelayingKeepsLinkFields(shown, now, "", false, false);
      RelayingKeepsLinkFields(Swept(shown, now), now, "", false, false);
    } else if Lost(c, now) {
      RelayingKeepsLinkFields(HostLost(c), now, "", false, false);
      RelayingKeepsLinkFields(HostLost(c.(failStreak := 0)), now, "", false, false);
    } else {
      var shown := c.(state := LinkedState(c));
      var d := SyncServed(shown, now, monoPoll, monoStart);
      SyncKeepsLinkFields(shown, now, monoPoll, monoStart);
      RelayingKeepsLinkFields(d, now, "", false, false);
      RelayingKeepsLinkFields(BurstPolled(d, now), now, "", false, false);
    }
  }

  lemma HandledLinks(c: Client, pkt: Packet, now: Tick, t3: int, mono: int)
    ensures LinkOf(Handled(c, pkt, now, t3, mono)) == Linked(LinkOf(c), c.role, Receive(pkt, now, t3, mono))
    ensures Handled(c, pkt, now, t3, mono).role == c.role
  {
    if pkt.TimeResp? { SyncKeepsLinkFields(c.(filter := OF.Added(c.filter, OF.Sample(pkt.t1, pkt.t2rx, pkt.t2tx, t3))), now, mono, mono); }
  }

  /** In every run the link is what the frames heard, the loops and the radio's reports make it,
      whatever is synced or relayed meanwhile: to the first host of another role, until it is given
      up; with the announced state of its uplink, the collision flag of the last announce listened
      to, and the lockout of the last config that parsed. */
  lemma {:induction false} LinkIsTold(role: int, steps: seq<Step>)
    ensures LinkOf(After(Begun(role), steps)) == LinkAfter(role, steps) && After(Begun(role), steps).role == role
    decreases |steps|
  {
    if steps != [] {
      var k := |steps| - 1;
      var c := After(Begun(role), steps[..k]);
      LinkIsTold(role, steps[..k]);
      match steps[k]
      case Receive(pkt, now, t3, mono) => HandledLinks(c, pkt, now, t3, mono);
      case LoopRest(now, monoPoll, monoStart) => RestLinks(c, now, monoPoll, monoStart);
      case Send(payload, burst3, now, radioOk) => RelayingKeepsLinkFields(c, now, payload, burst3, radioOk);
      case Reported(ok) =>
    }
  }

  // ---------------------------------------------------------------- the exchanges

  /** When the exchange under way was asked for. */
  datatype Asked = NotAsking | Asking(n: int, at: Tick)

  function AskedOf(c: Client): (a: Asked) {
    if c.phase == Exchanging then Asking(c.exchangesDone, c.exchangeStartMs) else NotAsking
  }

  /** The next of the five exchanges, or the end. */
  function NextAsked(a: Asked, now: Tick): (a': Asked)
    requires a.Asking?
  {
    if a.n + 1 >= 5 then NotAsking else Asking(a.n + 1, now)
  }

  /** What the step makes of the exchange, given the link, and when the last sync began. */
  function AskedNext(a: Asked, l: Link, lastStart: Tick, s: Step): (a': Asked) {
    match s
    case Receive(pkt, now, _, _) =>
      if a.Asking? && pkt.TimeResp? && l.host.Host? && pkt.mac == l.host.mac then NextAsked(a, now) else a
    case LoopRest(now, _, _) =>
      if l.host.NoHost? then a
      else if GivesUp(l, now) then NotAsking
      else
        var b := if a.Asking? && Sub32(now, a.at) > 200 then NextAsked(a, now) else a;
        if b.NotAsking? && !l.collision && l.host.uplinkUp && (lastStart == 0 || Sub32(now, lastStart) >= 300_000) then Asking(0, now) else b
    case _ => a
  }

  lemma SyncServedAsks(c: Client, now: Tick, monoPoll: int, monoStart: int)
    requires c.haveHost && !Lost(c, now)
    ensures AskedOf(SyncServed(c, now, monoPoll, monoStart))
            == AskedNext(AskedOf(c), LinkOf(c), c.lastSyncStartMs, LoopRest(now, monoPoll, monoStart))
  {
  }

  lemma RelayingAsksNothing(c: Client, now: Tick, payload: string, burst3: bool, radioOk: bool)
    ensures AskedOf(BurstPolled(c, now)) == AskedOf(c) && AskedOf(PendingPolled(c, now)) == AskedOf(c) && AskedOf(Swept(c, now)) == AskedOf(c)
    ensures AskedOf(SentToServer(c, payload, burst3, now, radioOk).client) == AskedOf(c)
  {
  }

  lemma RestAsks(c: Client, now: Tick, monoPoll: int, monoStart: int)
    ensures AskedOf(Rest(c, now, monoPoll, monoStart)) == AskedNext(AskedOf(c), LinkOf(c), c.lastSyncStartMs, LoopRest(now, monoPoll, monoStart))
  {
    if !c.haveHost {
      var shown := c.(state := if c.roleCollision then Failed else Connecting);
      RelayingAsksNothing(shown, now, "", false, false);
      RelayingAsksNothing(Swept(shown, now), now, "", false, false);
    } else if Lost(c, now) {
      RelayingAsksNothing(HostLost(c), now, "", false, false);
      RelayingAsksNothing(HostLost(c.(failStreak := 0)), now, "", false, false);
    } else {
      var shown := c.(state := LinkedState(c));
      var d := SyncServed(shown, now, monoPoll, monoStart);
      SyncServedAsks(shown, now, monoPoll, monoStart);
      RelayingAsksNothing(d, now, "", false, false);
      RelayingAsksNothing(BurstPolled(d, now), now, "", false, false);
    }
  }

  /** Every step moves the exchange on exactly when its reply comes from the host, its 200 ms are
      over, the link is given up, or a sync is due. */
  lemma ExchangesAreTold(c: Client, s: Step)
    requires LinkSound(c)
    ensures AskedOf(Apply(c, s)) == AskedNext(AskedOf(c), LinkOf(c), c.lastSyncStartMs, s)
  {
    match s
    case Receive(pkt, now, t3, mono) =>
    case LoopRest(now, monoPoll, monoStart) => RestAsks(c, now, monoPoll, monoStart);
    case Send(payload, burst3, now, radioOk) => RelayingAsksNothing(c, now, payload, burst3, radioOk);
    case Reported(ok) =>
  }

  // ---------------------------------------------------------------- the frames of the exchanges and the sweep

  /** The frames sent that are no relays, in order. */
  function Asides(sent: seq<Frame>): (fs: seq<Frame>)
    decreases |sent|
  {
    if sent == [] then []
    else Asides(sent[..|sent| - 1]) + if sent[|sent| - 1].Relay? then [] else [sent[|sent| - 1]]
  }

  lemma OneMoreAside(sent: seq<Frame>, f: Frame)
    ensures Asides(sent + [f]) == Asides(sent) + if f.Relay? then [] else [f]
  {
    assert (sent + [f])[..|sent|] == sent;
  }

  lemma RelayIsNoAside(c: Client, payload: string, burst: int)
    ensures Asides(Relayed(c, payload, burst).sent) == Asides(c.sent)
  {
    OneMoreAside(c.sent, Relay(c.hostMac, payload, burst));
    assert Asides(c.sent) + [] == Asides(c.sent);
  }

  lemma BegunIsNoAside(c: Client, payload: string, now: Tick)
    ensures Asides(BurstBegun(c, payload, now).sent) == Asides(c.sent)
  {
    RelayIsNoAside(c, payload, c.bursts + 1);
  }

  lemma PolledIsNoAside(c: Client, now: Tick)
    ensures Asides(BurstPolled(c, now).sent) == Asides(c.sent)
  {
    RelayIsNoAside(c, c.burst.payload, c.bursts);
  }

  lemma PendingIsNoAside(c: Client, now: Tick)
    ensures Asides(PendingPolled(c, now).sent) == Asides(c.sent)
  {
    BegunIsNoAside(c, c.pending.payload, now);
  }

  lemma SendIsNoAside(c: Client, payload: string, burst3: bool, now: Tick, radioOk: bool)
    ensures Asides(SentToServer(c, payload, burst3, now, radioOk).client.sent) == Asides(c.sent)
  {
    BegunIsNoAside(c, payload, now);
    RelayIsNoAside(c, payload, 0);
  }

  lemma FinishSendsNothing(c: Client, mono: int)
    ensures SyncFinished(c, mono).sent == c.sent && SyncFinished(c, mono).phase == Idle
  {
  }

  lemma ExchangeOverSends(c: Client, now: Tick, mono: int)
    requires c.phase == Exchanging && 0 <= c.exchangesDone
    ensures var d := ExchangeOver(c, now, mono); var b := AskedOf(d);
            (b.Asking? ==> b.n == c.exchangesDone + 1) && b != AskedOf(c) && d.sent == c.sent + if b.Asking? then [TimeReq(c.hostMac, mono)] else []
    ensures var d := ExchangeOver(c, now, mono);
            Asides(d.sent) == Asides(c.sent) + if AskedOf(d).Asking? then [TimeReq(c.hostMac, mono)] else []
  {
    FinishSendsNothing(c.(exchangesDone := c.exchangesDone + 1, syncs := c.syncs + [Advanced]), mono);
    OneMoreAside(c.sent, TimeReq(c.hostMac, mono));
    assert Asides(c.sent) + [] == Asides(c.sent) && c.sent + [] == c.sent;
  }

  lemma SyncStartedSends(c: Client, now: Tick, mono: int)
    ensures Asides(SyncStarted(c, now, mono).sent) == Asides(c.sent) + [TimeReq(c.hostMac, mono)]
    ensures AskedOf(SyncStarted(c, now, mono)) == Asking(0, now)
  {
    OneMoreAside(c.sent, TimeReq(c.hostMac, mono));
  }

  /** A request goes to the host whenever a new exchange is asked for, and carries the clock of that
      moment. */
  lemma SyncPolledSends(c: Client, now: Tick, mono: int)
    requires LinkSound(c)
    ensures var d := SyncPolled(c, now, mono); var b := AskedOf(d);
            && d.hostMac == c.hostMac
            && Asides(d.sent) == Asides(c.sent) + (if b == AskedOf(c) || b.NotAsking? then [] else [TimeReq(c.hostMac, mono)])
            && (b.Asking? && b != AskedOf(c) ==> b.n > 0)
  {
    assert Asides(c.sent) + [] == Asides(c.sent);
    if c.phase == Exchanging && Sub32(now, c.exchangeStartMs) > SYNC_EXCHANGE_TIMEOUT_MS { ExchangeOverSends(c, now, mono); }
  }

  lemma SyncServedSends(c: Client, now: Tick, monoPoll: int, monoStart: int)
    requires LinkSound(c)
    ensures var d := SyncServed(c, now, monoPoll, monoStart); var b := AskedOf(d);
            Asides(d.sent) == Asides(c.sent) + if b == AskedOf(c) || b.NotAsking? then []
                                               else [TimeReq(c.hostMac, if b.n == 0 then monoStart else monoPoll)]
  {
    var d := SyncPolled(c, now, monoPoll);
    SyncPolledSends(c, now, monoPoll);
    SyncStartedSends(d, now, monoStart);
    assert Asides(c.sent) + [] == Asides(c.sent);
    if SyncDue(d, now) {
      NotTheSameStart(c, now, monoPoll);
    }
  }

  /** A sync that begins is a new exchange, even right after one that has just ended. */
  lemma NotTheSameStart(c: Client, now: Tick, mono: int)
    requires LinkSound(c) && SyncDue(SyncPolled(c, now, mono), now)
    ensures AskedOf(SyncPolled(c, now, mono)) == NotAsking && AskedOf(c) != Asking(0, now)
  {
    assert Sub32(now, now) == 0;
  }

  /** What the step sends besides relays: the request of each new exchange, and while there is no host
      one call on the next channel every 150 ms. */
  function AsideOf(c: Client, s: Step): (fs: seq<Frame>) {
    var b := AskedNext(AskedOf(c), LinkOf(c), c.lastSyncStartMs, s);
    match s
    case Receive(_, _, _, mono) => if b == AskedOf(c) || b.NotAsking? then [] else [TimeReq(c.hostMac, mono)]
    case LoopRest(now, monoPoll, monoStart) =>
      if !c.haveHost then (if c.channelSwitchMs == 0 || Sub32(now, c.channelSwitchMs) >= 150 then [Discover] else [])
      else if b == AskedOf(c) || b.NotAsking? then []
      else [TimeReq(c.hostMac, if b.n == 0 then monoStart else monoPoll)]
    case _ => []
  }

  lemma UnlinkedSends(c: Client, now: Tick, monoPoll: int, monoStart: int)
    requires !c.haveHost
    ensures Asides(Rest(c, now, monoPoll, monoStart).sent)
            == Asides(c.sent) + if c.channelSwitchMs == 0 || Sub32(now, c.channelSwitchMs) >= 150 then [Discover] else []
  {
    var shown := c.(state := if c.roleCollision then Failed else Connecting);
    var d := Swept(shown, now);
    OneMoreAside(c.sent, Discover);
    assert Asides(c.sent) + [] == Asides(c.sent);
    PendingIsNoAside(d, now);
  }

  lemma UnlinkedSendsAsides(c: Client, now: Tick, monoPoll: int, monoStart: int)
    requires !c.haveHost
    ensures Asides(Rest(c, now, monoPoll, monoStart).sent) == Asides(c.sent) + AsideOf(c, LoopRest(now, monoPoll, monoStart))
  {
    UnlinkedSends(c, now, monoPoll, monoStart);
  }

  lemma LostSendsAsides(c: Client, now: Tick, monoPoll: int, monoStart: int)
    requires Lost(c, now)
    ensures Asides(Rest(c, now, monoPoll, monoStart).sent) == Asides(c.sent) + AsideOf(c, LoopRest(now, monoPoll, monoStart))
  {
    assert Asides(c.sent) + [] == Asides(c.sent);
    PendingIsNoAside(HostLost(c), now);
    PendingIsNoAside(HostLost(c.(failStreak := 0)), now);
  }

  lemma LinkedSendsAsides(c: Client, now: Tick, monoPoll: int, monoStart: int)
    requires LinkSound(c) && c.haveHost && !Lost(c, now)
    ensures Asides(Rest(c, now, monoPoll, monoStart).sent) == Asides(c.sent) + AsideOf(c, LoopRest(now, monoPoll, monoStart))
  {
    var shown := c.(state := LinkedState(c));
    var d := SyncServed(shown, now, monoPoll, monoStart);
    SyncServedAsks(shown, now, monoPoll, monoStart);
    SyncServedSends(shown, now, monoPoll, monoStart);
    PolledIsNoAside(d, now);
    PendingIsNoAside(BurstPolled(d, now), now);
  }

  lemma HandledSendsAsides(c: Client, pkt: Packet, now: Tick, t3: int, mono: int)
    requires LinkSound(c)
    ensures Asides(Handled(c, pkt, now, t3, mono).sent) == Asides(c.sent) + AsideOf(c, Receive(pkt, now, t3, mono))
  {
    assert Asides(c.sent) + [] == Asides(c.sent);
    var b := AskedNext(AskedOf(c), LinkOf(c), c.lastSyncStartMs, Receive(pkt, now, t3, mono));
    if pkt.TimeResp? && c.phase == Exchanging && c.haveHost && pkt.mac == c.hostMac {
      var fed := c.(filter := OF.Added(c.filter, OF.Sample(pkt.t1, pkt.t2rx, pkt.t2tx, t3)));
      ExchangeOverSends(fed, now, mono);
      assert Handled(c, pkt, now, t3, mono) == ExchangeOver(fed, now, mono);
      ExchangesAreTold(c, Receive(pkt, now, t3, mono));
    } else {
      assert Handled(c, pkt, now, t3, mono).sent == c.sent && b == AskedOf(c);
    }
  }

  /** Every step sends exactly those frames besides relays. */
  lemma AsidesAreTold(c: Client, s: Step)
    requires LinkSound(c)
    ensures Asides(Apply(c, s).sent) == Asides(c.sent) + AsideOf(c, s)
  {
    match s
    case Receive(pkt, now, t3, mono) => HandledSendsAsides(c, pkt, now, t3, mono);
    case LoopRest(now, monoPoll, monoStart) =>
      if !c.haveHost { UnlinkedSendsAsides(c, now, monoPoll, monoStart); }
      else if Lost(c, now) { LostSendsAsides(c, now, monoPoll, monoStart); }
      else { LinkedSendsAsides(c, now, monoPoll, monoStart); }
    case Send(payload, burst3, now, radioOk) =>
      SendIsNoAside(c, payload, burst3, now, radioOk);
      assert Asides(c.sent) + [] == Asides(c.sent);
    case Reported(ok) => assert Asides(c.sent) + [] == Asides(c.sent);
  }

  /** The sweep goes through the channels in turn, one call each, while there is no host. */
  lemma SweepIsTold(c: Client, s: Step)
    ensures var swept := s.LoopRest? && !c.haveHost && (c.channelSwitchMs == 0 || Sub32(s.now, c.channelSwitchMs) >= 150);
            var d := Apply(c, s);
            && d.currentChannel == (if !swept then c.currentChannel else if 0 <= c.currentChannel < 13 then c.currentChannel + 1 else d.currentChannel)
            && (swept && c.currentChannel == 13 ==> d.currentChannel == 1)
            && d.channelSwitchMs == if swept then s.now else c.channelSwitchMs
  {
    if s.LoopRest? { RestSweeps(c, s.now, s.monoPoll, s.monoStart); }
  }

  predicate SameSweep(c: Client, d: Client) {
    d.currentChannel == c.currentChannel && d.channelSwitchMs == c.channelSwitchMs
  }

  lemma RelayingSweepsNot(c: Client, now: Tick)
    ensures SameSweep(c, BurstPolled(c, now)) && SameSweep(c, PendingPolled(c, now))
  {
  }

  lemma SyncSweepsNot(c: Client, now: Tick, monoPoll: int, monoStart: int)
    ensures SameSweep(c, SyncServed(c, now, monoPoll, monoStart)) && SameSweep(c, HostLost(c))
  {
  }

  lemma RestSweeps(c: Client, now: Tick, monoPoll: int, monoStart: int)
    ensures SameSweep(if c.haveHost then c else Swept(c.(state := if c.roleCollision then Failed else Connecting), now),
                      Rest(c, now, monoPoll, monoStart))
  {
    if !c.haveHost {
      RelayingSweepsNot(Swept(c.(state := if c.roleCollision then Failed else Connecting), now), now);
    } else if Lost(c, now) {
      SyncSweepsNot(c, now, monoPoll, monoStart);
      SyncSweepsNot(c.(failStreak := 0), now, monoPoll, monoStart);
      RelayingSweepsNot(HostLost(c), now);
      RelayingSweepsNot(HostLost(c.(failStreak := 0)), now);
    } else {
      var shown := c.(state := LinkedState(c));
      var d := SyncServed(shown, now, monoPoll, monoStart);
      SyncSweepsNot(shown, now, monoPoll, monoStart);
      RelayingSweepsNot(d, now);
      RelayingSweepsNot(BurstPolled(d, now), now);
    }
  }

  // ---------------------------------------------------------------- samples and the clock

  /** A sync's estimate is the filter's over the replies of the sync, each measured from its own
      request, and at the end of the sync the clock is anchored or resynced by it, if there is one. */
  lemma RepliesAreSampled(c: Client, s: Step)
    requires LinkSound(c)
    ensures var d := Apply(c, s); var a, b := AskedOf(c), AskedOf(d);
            s.Receive? && s.pkt.TimeResp? && a.Asking? && Listens(LinkOf(c), s.pkt) ==>
              && d.filter == OF.Added(c.filter, OF.Sample(s.pkt.t1, s.pkt.t2rx, s.pkt.t2tx, s.t3))
              && d.clock == if b.NotAsking? && d.filter.have then TB.Resynced(c.clock, s.mono + d.filter.offset, s.mono) else c.clock
  {
  }
}
