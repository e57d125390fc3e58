/** The ESP-NOW client as it runs (firmware/src/uplink_espnow.cpp): each method against the state
    machine of EspNow.dfy. The microsecond clock, the radio's return values and the frames already
    decoded are inputs. */
module EspNowClient {
  import opened Common
  import opened EspNow
  import TB = TimeBase
  import OF = OffsetFilter

  class UplinkEspNow {
    const role: int
    var state: LinkState
    const timebase: TB.TimeBase
    var lockoutMs: int

    var hostMac: int
    var haveHost: bool
    var hostUplinkUp: bool
    var roleCollision: bool
    var lastRssi: int
    var hostChannel: int
    var lastAnnounceRxMs: Tick

    var currentChannel: int
    var channelSwitchMs: Tick
    var sendFailStreak: int

    var relayBurst: Burst
    var pendingTrigger: Pending

    const offsetFilter: OF.OffsetFilter
    var syncPhase: Phase
    var syncExchangesDone: int
    var syncExchangeStartMs: Tick
    var lastSyncStartMs: Tick

    ghost var sent: seq<Frame>
    ghost var bursts: int
    ghost var syncs: seq<SyncEvent>
    ghost var resyncs: nat

    ghost function St(): (c: Client)
      reads this, timebase, offsetFilter
    {
      Client(role, state, timebase.St(), lockoutMs,
             hostMac, haveHost, hostUplinkUp, roleCollision, lastRssi, hostChannel,
             lastAnnounceRxMs, currentChannel, channelSwitchMs, sendFailStreak,
             relayBurst, pendingTrigger,
             offsetFilter.St(), syncPhase, syncExchangesDone, syncExchangeStartMs, lastSyncStartMs,
             sent, bursts, syncs, resyncs)
    }

    constructor (role: int)
      ensures St() == Begun(role)
      ensures fresh(timebase) && fresh(offsetFilter)
    {
      this.role := role;
      state, lockoutMs := Connecting, 10_000;
      hostMac, haveHost, hostUplinkUp, roleCollision, lastRssi, hostChannel := 0, false, false, false, 0, 0;
      lastAnnounceRxMs, currentChannel, channelSwitchMs, sendFailStreak := 0, 1, 0, 0;
      relayBurst, pendingTrigger := Burst("", 0, 0, false), Pending("", 0, false);
      syncPhase, syncExchangesDone, syncExchangeStartMs, lastSyncStartMs := Idle, 0, 0, 0;
      sent, bursts, syncs, resyncs := [], 0, [], 0;
      timebase := new TB.TimeBase();
      offsetFilter := new OF.OffsetFilter();
    }

    method LinkUsable() returns (b: bool)
      ensures b == Usable(St())
    {
      return haveHost && !roleCollision && hostUplinkUp;
    }

    // -------------------------------------------------------------- time sync

    method SendTimeReq(mono: int)
      modifies this
      ensures St() == EspNow.SendTimeReq(old(St()), mono)
    {
      sent := sent + [TimeReq(hostMac, mono)];
    }

    method StartTimeSync(nowMs: Tick, mono: int)
      modifies this, offsetFilter
      ensures St() == SyncStarted(old(St()), nowMs, mono)
    {
      offsetFilter.Reset();
      syncPhase := Exchanging;
      syncExchangesDone := 0;
      syncExchangeStartMs := nowMs;
      lastSyncStartMs := nowMs;
      syncs := syncs + [Started(nowMs)];
      SendTimeReq(mono);
    }

    method FinishTimeSync(mono: int)
      modifies this, timebase
      ensures St() == SyncFinished(old(St()), mono)
    {
      syncPhase := Idle;
      syncs := syncs + [Finished];
      if !offsetFilter.haveBest { return; }
      resyncs := if timebase.isSynced then resyncs + 1 else 0;
      timebase.ReanchorSlewed(mono + offsetFilter.bestOffsetUs, mono);
    }

    /** What a reply and a timeout have in common. */
    method EndExchange(nowMs: Tick, mono: int)
      modifies this, timebase
      ensures St() == ExchangeOver(old(St()), nowMs, mono)
    {
      syncExchangesDone := syncExchangesDone + 1;
      syncs := syncs + [Advanced];
      if syncExchangesDone >= SYNC_EXCHANGE_COUNT {
        FinishTimeSync(mono);
      } else {
        syncExchangeStartMs := nowMs;
        SendTimeReq(mono);
      }
    }

    method PollTimeSync(nowMs: Tick, mono: int)
      modifies this, timebase
      ensures St() == SyncPolled(old(St()), nowMs, mono)
    {
      if syncPhase != Exchanging { return; }
      if Sub32(nowMs, syncExchangeStartMs) <= SYNC_EXCHANGE_TIMEOUT_MS { return; }
      EndExchange(nowMs, mono);
    }

    // -------------------------------------------------------------- received frames

    method LinkTo(mac: int)
      modifies this
      ensures St() == old(St()).(hostMac := mac, failStreak := 0, haveHost := true)
    {
      hostMac, sendFailStreak, haveHost := mac, 0, true;
    }

    method NoteHost(rssi: int, channel: int, uplinkUp: bool, nowMs: Tick)
      modifies this
      ensures St() == old(St()).(roleCollision := false, lastAnnounceRxMs := nowMs, hostUplinkUp := uplinkUp,
                                 hostChannel := channel, rssi := rssi)
    {
      roleCollision := false;
      lastAnnounceRxMs, hostUplinkUp, hostChannel, lastRssi := nowMs, uplinkUp, channel, rssi;
    }

    method HearAnnounce(mac: int, rssi: int, channel: int, hostRole: int, uplinkUp: bool, nowMs: Tick)
      modifies this
      ensures St() == AnnounceHeard(old(St()), mac, rssi, channel, hostRole, uplinkUp, nowMs)
    {
      if hostRole == role {
        roleCollision := true;
        return;
      }
      if !haveHost { LinkTo(mac); }
      NoteHost(rssi, channel, uplinkUp, nowMs);
    }

    method HearTimeResp(t1: int, t2rx: int, t2tx: int, nowMs: Tick, t3: int, mono: int)
      modifies this, timebase, offsetFilter
      ensures St() == if old(St()).phase != Exchanging then old(St())
                      else ExchangeOver(old(St()).(filter := OF.Added(old(St()).filter, OF.Sample(t1, t2rx, t2tx, t3))), nowMs, mono)
    {
      if syncPhase != Exchanging { return; }
      ghost var c := St();
      var _ := offsetFilter.AddSample(t1, t2rx, t2tx, t3);
      assert St() == c.(filter := OF.Added(c.filter, OF.Sample(t1, t2rx, t2tx, t3)));
      EndExchange(nowMs, mono);
    }

    method HandlePacket(pkt: Packet, nowMs: Tick, t3: int, mono: int)
      modifies this, timebase, offsetFilter
      ensures St() == Handled(old(St()), pkt, nowMs, t3, mono)
    {
      if haveHost && pkt.mac != hostMac { return; }
      if !haveHost && !pkt.Announce? { return; }
      match pkt
      case Announce(mac, rssi, channel, hostRole, uplinkUp) => HearAnnounce(mac, rssi, channel, hostRole, uplinkUp, nowMs);
      case Config(_, lockout) =>
        if lockout.Some? { lockoutMs := lockout.value; }
      case TimeResp(_, t1, t2rx, t2tx) => HearTimeResp(t1, t2rx, t2tx, nowMs, t3, mono);
      case Other(_) =>
    }

    // -------------------------------------------------------------- relaying

    method SendRelay(payload: string, ghost burst: int, radioOk: bool) returns (ok: bool)
      modifies this
      ensures St() == Relayed(old(St()), payload, burst)
      ensures ok == (1 + |payload| <= FRAME_CAP && radioOk)
    {
      if 1 + |payload| > FRAME_CAP { return false; }
      sent := sent + [Relay(hostMac, payload, burst)];
      return radioOk;
    }

    method StartBurst(payload: string, nowMs: Tick)
      modifies this
      ensures St() == BurstBegun(old(St()), payload, nowMs)
    {
      var _ := SendRelay(payload, bursts + 1, true);
      relayBurst := Burst(payload, 2, Plus(nowMs, BURST_GAP_MS), true);
      bursts := bursts + 1;
    }

    method PollRelayBurst(nowMs: Tick)
      modifies this
      ensures St() == BurstPolled(old(St()), nowMs)
    {
      if !relayBurst.active { return; }
      if NotYet(nowMs, relayBurst.nextAtMs) { return; }
      var _ := SendRelay(relayBurst.payload, bursts, true);
      relayBurst := relayBurst.(remaining := (relayBurst.remaining - 1) % 256);
      if relayBurst.remaining == 0 {
        relayBurst := relayBurst.(active := false);
      } else {
        relayBurst := relayBurst.(nextAtMs := Plus(nowMs, BURST_GAP_MS));
      }
    }

    method PollPendingTrigger(nowMs: Tick)
      modifies this
      ensures St() == PendingPolled(old(St()), nowMs)
    {
      if !pendingTrigger.active { return; }
      var usable := LinkUsable();
      if usable {
        StartBurst(pendingTrigger.payload, nowMs);
        pendingTrigger := pendingTrigger.(active := false);
        return;
      }
      if Sub32(nowMs, pendingTrigger.queuedAtMs) > TRIGGER_RETRY_MS {
        pendingTrigger := pendingTrigger.(active := false);
      }
    }

    method SendToServer(payload: string, burst3: bool, nowMs: Tick, radioOk: bool) returns (ok: bool)
      modifies this
      ensures SendResult(St(), ok) == SentToServer(old(St()), payload, burst3, nowMs, radioOk)
    {
      var usable := LinkUsable();
      if !burst3 {
        if !usable { return false; }
        ok := SendRelay(payload, 0, radioOk);
        return;
      }
      if |payload| >= PAYLOAD_CAP { return false; }
      if usable {
        StartBurst(payload, nowMs);
        return true;
      }
      pendingTrigger := Pending(payload, nowMs, true);
      return true;
    }

    // -------------------------------------------------------------- loop

    method SweepChannel(nowMs: Tick)
      modifies this
      ensures St() == Swept(old(St()), nowMs)
    {
      if channelSwitchMs != 0 && Sub32(nowMs, channelSwitchMs) < CHANNEL_DWELL_MS { return; }
      channelSwitchMs := nowMs;
      sent := sent + [Discover];
      currentChannel := currentChannel % 13 + 1;
    }

    method AbandonSync()
      modifies this, timebase
      ensures St() == SyncAbandoned(old(St()))
    {
      timebase.Invalidate();
      syncPhase := Idle;
      lastSyncStartMs := 0;
      syncs := syncs + [LinkLost];
    }

    method LoseHost()
      modifies this, timebase
      ensures St() == HostLost(old(St()))
    {
      AbandonSync();
      haveHost := false;
      roleCollision := false;
      relayBurst := relayBurst.(active := false);
      state := Connecting;
    }

    method ServeSync(nowMs: Tick, monoPoll: int, monoStart: int)
      modifies this, timebase, offsetFilter
      ensures St() == SyncServed(old(St()), nowMs, monoPoll, monoStart)
    {
      PollTimeSync(nowMs, monoPoll);
      var usable := LinkUsable();
      if syncPhase == Idle && usable && (lastSyncStartMs == 0 || Sub32(nowMs, lastSyncStartMs) >= RESYNC_INTERVAL_MS) {
        StartTimeSync(nowMs, monoStart);
      }
    }

    method Drain(queue: seq<Received>, nowMs: Tick)
      modifies this, timebase, offsetFilter
      ensures St() == Drained(old(St()), queue, nowMs)
    {
      var i := 0;
      while i < |queue|
        invariant 0 <= i <= |queue|
        invariant Drained(St(), queue[i..], nowMs) == Drained(old(St()), queue, nowMs)
      {
        HandlePacket(queue[i].pkt, nowMs, queue[i].t3, queue[i].mono);
        assert queue[i..][1..] == queue[i + 1..];
        i := i + 1;
      }
    }

    method FinishLoop(nowMs: Tick, monoPoll: int, monoStart: int)
      modifies this, timebase, offsetFilter
      ensures St() == Rest(old(St()), nowMs, monoPoll, monoStart)
    {
      if !haveHost {
        state := if roleCollision then Failed else Connecting;
        SweepChannel(nowMs);
        PollPendingTrigger(nowMs);
        return;
      }
      if Sub32(nowMs, lastAnnounceRxMs) > ANNOUNCE_TIMEOUT_MS {
        LoseHost();
        PollPendingTrigger(nowMs);
        return;
      }
      if sendFailStreak >= SEND_FAIL_STREAK_LIMIT {
        sendFailStreak := 0;
        LoseHost();
        PollPendingTrigger(nowMs);
        return;
      }
      state := if roleCollision then Failed else if timebase.isSynced then Ready else Syncing;
      ServeSync(nowMs, monoPoll, monoStart);
      PollRelayBurst(nowMs);
      PollPendingTrigger(nowMs);
    }

    /** One call of `loop`, with the frames its receive queue holds. */
    method Loop(queue: seq<Received>, nowMs: Tick, monoPoll: int, monoStart: int)
      modifies this, timebase, offsetFilter
      ensures St() == Rest(Drained(old(St()), queue, nowMs), nowMs, monoPoll, monoStart)
    {
      Drain(queue, nowMs);
      FinishLoop(nowMs, monoPoll, monoStart);
    }
  }
}
