/** The ESP-NOW client's link (firmware/src/uplink_espnow.cpp) as a state machine: one step per
    received frame, per remainder of `loop`, per `sendToServer` and per report of the radio. */
module EspNow {
  import opened Common
  import TB = TimeBase
  import OF = OffsetFilter

  /** Readings of `millis()`. */
  type Tick = t: int | 0 <= t < U32 witness 0

  const CHANNEL_DWELL_MS: int := 150
  const ANNOUNCE_TIMEOUT_MS: int := 10_000
  const SEND_FAIL_STREAK_LIMIT: int := 5
  const TRIGGER_RETRY_MS: int := 3_000
  const SYNC_EXCHANGE_COUNT: int := 5
  const SYNC_EXCHANGE_TIMEOUT_MS: int := 200
  const RESYNC_INTERVAL_MS: int := 300_000
  const BURST_GAP_MS: int := 50
  const PAYLOAD_CAP: int := 192
  const FRAME_CAP: int := 250

  datatype LinkState = Init | Connecting | Syncing | Ready | Failed

  datatype Phase = Idle | Exchanging

  /** A decoded frame. `Other` is a frame of any other type or one that does not decode; `lockout`
      is what the config text parses to, if it does. */
  datatype Packet =
    | Announce(mac: int, rssi: int, channel: int, hostRole: int, uplinkUp: bool)
    | Config(mac: int, lockout: Option<int>)
    | TimeResp(mac: int, t1: int, t2rx: int, t2tx: int)
    | Other(mac: int)

  /** What is handed to the radio. `burst` numbers the bursts; heartbeats are 0. */
  datatype Frame =
    | Discover
    | TimeReq(to: int, t1: int)
    | Relay(to: int, payload: string, burst: int)

  datatype Burst = Burst(payload: string, remaining: int, nextAtMs: Tick, active: bool)

  datatype Pending = Pending(payload: string, queuedAtMs: Tick, active: bool)

  datatype SyncEvent = Started(at: Tick) | Advanced | Finished | LinkLost

  /** `sent`, `bursts`, `syncs` and `resyncs` are history: the frames sent, the bursts begun, what
      happened to each sync, and the resyncs since the last hard anchor. */
  datatype Client = Client(
    role: int, state: LinkState, clock: TB.Clock, lockoutMs: int,
    hostMac: int, haveHost: bool, hostUplinkUp: bool, roleCollision: bool, rssi: int, hostChannel: int,
    lastAnnounceRxMs: Tick, currentChannel: int, channelSwitchMs: Tick, failStreak: int,
    burst: Burst, pending: Pending,
    filter: OF.Best, phase: Phase, exchangesDone: int, exchangeStartMs: Tick, lastSyncStartMs: Tick,
    sent: seq<Frame>, bursts: int, syncs: seq<SyncEvent>, resyncs: nat)

  function Begun(role: int): (c: Client) {
    Client(role, Connecting, TB.Unset, 10_000,
           0, false, false, false, 0, 0,
           0, 1, 0, 0,
           Burst("", 0, 0, false), Pending("", 0, false),
           OF.Empty, Idle, 0, 0, 0,
           [], 0, [], 0)
  }

  function Plus(t: Tick, ms: int): (u: Tick) {
    (t + ms) % U32
  }

  /** `(int32_t)(now - at) < 0`. */
  predicate NotYet(now: Tick, at: Tick) {
    Sub32(now, at) >= U32 / 2
  }

  predicate Usable(c: Client) {
    c.haveHost && !c.roleCollision && c.hostUplinkUp
  }

  // ---------------------------------------------------------------- time sync

  function SendTimeReq(c: Client, mono: int): (c': Client) {
    c.(sent := c.sent + [TimeReq(c.hostMac, mono)])
  }

  function SyncStarted(c: Client, now: Tick, mono: int): (c': Client) {
    SendTimeReq(c.(filter := OF.Empty, phase := Exchanging, exchangesDone := 0, exchangeStartMs := now,
                   lastSyncStartMs := now, syncs := c.syncs + [Started(now)]), mono)
  }

  function SyncFinished(c: Client, mono: int): (c': Client) {
    var idle := c.(phase := Idle, syncs := c.syncs + [Finished]);
    if !c.filter.have then idle
    else idle.(clock := TB.Resynced(c.clock, mono + c.filter.offset, mono),
               resyncs := if c.clock.synced then c.resyncs + 1 else 0)
  }

  /** One of the five exchanges is over, by a reply or by its timeout. */
  function ExchangeOver(c: Client, now: Tick, mono: int): (c': Client) {
    var d := c.(exchangesDone := c.exchangesDone + 1, syncs := c.syncs + [Advanced]);
    if d.exchangesDone >= SYNC_EXCHANGE_COUNT then SyncFinished(d, mono)
    else SendTimeReq(d.(exchangeStartMs := now), mono)
  }

  function SyncPolled(c: Client, now: Tick, mono: int): (c': Client) {
    if c.phase != Exchanging || Sub32(now, c.exchangeStartMs) <= SYNC_EXCHANGE_TIMEOUT_MS then c
    else ExchangeOver(c, now, mono)
  }

  predicate SyncDue(c: Client, now: Tick) {
    && c.phase == Idle && Usable(c)
    && (c.lastSyncStartMs == 0 || Sub32(now, c.lastSyncStartMs) >= RESYNC_INTERVAL_MS)
  }

  // ---------------------------------------------------------------- received frames

  function AnnounceHeard(c: Client, mac: int, rssi: int, channel: int, hostRole: int, up: bool, now: Tick): (c': Client) {
    if hostRole == c.role then c.(roleCollision := true)
    else
      var linked := if c.haveHost then c else c.(hostMac := mac, failStreak := 0, haveHost := true);
      linked.(roleCollision := false, lastAnnounceRxMs := now, hostUplinkUp := up, hostChannel := channel, rssi := rssi)
  }

  /** t3 and mono are the readings of the microsecond clock on receipt and at the end. */
  function Handled(c: Client, pkt: Packet, now: Tick, t3: int, mono: int): (c': Client) {
    if c.haveHost && pkt.mac != c.hostMac then c
    else if !c.haveHost && !pkt.Announce? then c
    else match pkt
      case Announce(mac, rssi, channel, hostRole, up) => AnnounceHeard(c, mac, rssi, channel, hostRole, up, now)
      case Config(_, lockout) => if lockout.Some? then c.(lockoutMs := lockout.value) else c
      case TimeResp(_, t1, t2rx, t2tx) =>
        if c.phase != Exchanging then c
        else ExchangeOver(c.(filter := OF.Added(c.filter, OF.Sample(t1, t2rx, t2tx, t3))), now, mono)
      case Other(_) => c
  }

  // ---------------------------------------------------------------- relaying

  function Relayed(c: Client, payload: string, burst: int): (c': Client) {
    if 1 + |payload| > FRAME_CAP then c else c.(sent := c.sent + [Relay(c.hostMac, payload, burst)])
  }

  /** The first copy now, two more to come. */
  function BurstBegun(c: Client, payload: string, now: Tick): (c': Client) {
    var no := c.bursts + 1;
    Relayed(c, payload, no).(burst := Burst(payload, 2, Plus(now, BURST_GAP_MS), true), bursts := no)
  }

  function BurstPolled(c: Client, now: Tick): (c': Client) {
    if !c.burst.active || NotYet(now, c.burst.nextAtMs) then c
    else
      var left := (c.burst.remaining - 1) % 256;
      Relayed(c, c.burst.payload, c.bursts).(
        burst := if left == 0 then c.burst.(remaining := 0, active := false)
                 else c.burst.(remaining := left, nextAtMs := Plus(now, BURST_GAP_MS)))
  }

  function PendingPolled(c: Client, now: Tick): (c': Client) {
    if !c.pending.active then c
    else if Usable(c) then BurstBegun(c, c.pending.payload, now).(pending := c.pending.(active := false))
    else if Sub32(now, c.pending.queuedAtMs) > TRIGGER_RETRY_MS then c.(pending := c.pending.(active := false))
    else c
  }

  datatype SendResult = SendResult(client: Client, ok: bool)

  /** `radioOk` is what the radio's send call returns. */
  function SentToServer(c: Client, payload: string, burst3: bool, now: Tick, radioOk: bool): (r: SendResult) {
    if !burst3 then
      if !Usable(c) then SendResult(c, false)
      else SendResult(Relayed(c, payload, 0), 1 + |payload| <= FRAME_CAP && radioOk)
    else if |payload| >= PAYLOAD_CAP then SendResult(c, false)
    else if Usable(c) then SendResult(BurstBegun(c, payload, now), true)
    else SendResult(c.(pending := Pending(payload, now, true)), true)
  }

  // ---------------------------------------------------------------- the rest of loop

  function Swept(c: Client, now: Tick): (c': Client) {
    if c.channelSwitchMs != 0 && Sub32(now, c.channelSwitchMs) < CHANNEL_DWELL_MS then c
    else c.(channelSwitchMs := now, sent := c.sent + [Discover], currentChannel := c.currentChannel % 13 + 1)
  }

  function SyncAbandoned(c: Client): (c': Client) {
    c.(clock := c.clock.(synced := false), phase := Idle, lastSyncStartMs := 0, syncs := c.syncs + [LinkLost])
  }

  function HostLost(c: Client): (c': Client) {
    SyncAbandoned(c).(haveHost := false, roleCollision := false, burst := c.burst.(active := false), state := Connecting)
  }

  function LinkedState(c: Client): (s: LinkState) {
    if c.roleCollision then Failed else if c.clock.synced then Ready else Syncing
  }

  function SyncServed(c: Client, now: Tick, monoPoll: int, monoStart: int): (c': Client) {
    var d := SyncPolled(c, now, monoPoll);
    if SyncDue(d, now) then SyncStarted(d, now, monoStart) else d
  }

  /** What `loop` does once the receive queue is empty. */
  function Rest(c: Client, now: Tick, monoPoll: int, monoStart: int): (c': Client) {
    if !c.haveHost then
      PendingPolled(Swept(c.(state := if c.roleCollision then Failed else Connecting), now), now)
    else if Sub32(now, c.lastAnnounceRxMs) > ANNOUNCE_TIMEOUT_MS then PendingPolled(HostLost(c), now)
    else if c.failStreak >= SEND_FAIL_STREAK_LIMIT then PendingPolled(HostLost(c.(failStreak := 0)), now)
    else PendingPolled(BurstPolled(SyncServed(c.(state := LinkedState(c)), now, monoPoll, monoStart), now), now)
  }

  // ---------------------------------------------------------------- runs

  datatype Step =
    | Receive(pkt: Packet, now: Tick, t3: int, mono: int)
    | LoopRest(now: Tick, monoPoll: int, monoStart: int)
    | Send(payload: string, burst3: bool, now: Tick, radioOk: bool)
    | Reported(ok: bool)

  function Apply(c: Client, s: Step): (c': Client) {
    match s
    case Receive(pkt, now, t3, mono) => Handled(c, pkt, now, t3, mono)
    case LoopRest(now, monoPoll, monoStart) => Rest(c, now, monoPoll, monoStart)
    case Send(payload, burst3, now, radioOk) => SentToServer(c, payload, burst3, now, radioOk).client
    case Reported(ok) => c.(failStreak := if ok then 0 else (c.failStreak + 1) % U32)
  }

  function After(c: Client, steps: seq<Step>): (c': Client)
    decreases |steps|
  {
    if steps == [] then c else Apply(After(c, steps[..|steps| - 1]), steps[|steps| - 1])
  }

  // ---------------------------------------------------------------- the link

  ghost predicate LinkSound(c: Client) {
    && (!c.haveHost ==> !c.burst.active && c.phase == Idle && !c.clock.synced && c.lastSyncStartMs == 0)
    && (c.state == Ready ==> c.haveHost && c.clock.synced)
    && (c.burst.active ==> 1 <= c.burst.remaining <= 2)
    && (c.phase == Exchanging ==> 0 <= c.exchangesDone < SYNC_EXCHANGE_COUNT)
    && 1 <= c.currentChannel <= 13
  }

  /** The state shown to the rest of the firmware after `loop` is exactly what the link is. */
  ghost predicate ShownSoundly(c: Client) {
    && (c.state == Ready ==> c.haveHost && c.clock.synced && !c.roleCollision)
    && (c.state == Failed <==> c.roleCollision)
    && (c.state == Connecting <==> !c.haveHost && !c.roleCollision)
    && (c.state == Syncing ==> c.haveHost && !c.roleCollision)
    && c.state != Init
  }

  lemma HandledKeepsLink(c: Client, pkt: Packet, now: Tick, t3: int, mono: int)
    requires LinkSound(c)
    ensures LinkSound(Handled(c, pkt, now, t3, mono))
  {
  }

  lemma SendKeepsLink(c: Client, payload: string, burst3: bool, now: Tick, radioOk: bool)
    requires LinkSound(c)
    ensures LinkSound(SentToServer(c, payload, burst3, now, radioOk).client)
  {
  }

  lemma PendingKeepsLink(c: Client, now: Tick)
    requires LinkSound(c)
    ensures LinkSound(PendingPolled(c, now))
    ensures ShownSoundly(c) ==> ShownSoundly(PendingPolled(c, now))
  {
  }

  lemma SyncServedKeepsLink(c: Client, now: Tick, monoPoll: int, monoStart: int)
    requires LinkSound(c) && c.haveHost && ShownSoundly(c)
    ensures var d := SyncServed(c, now, monoPoll, monoStart); LinkSound(d) && d.haveHost && ShownSoundly(d)
  {
  }

  lemma BurstKeepsLink(c: Client, now: Tick)
    requires LinkSound(c) && ShownSoundly(c)
    ensures LinkSound(BurstPolled(c, now)) && ShownSoundly(BurstPolled(c, now))
  {
  }

  lemma SweptKeepsLink(c: Client, now: Tick)
    requires LinkSound(c) && !c.haveHost
    ensures var d := Swept(c.(state := if c.roleCollision then Failed else Connecting), now); LinkSound(d) && ShownSoundly(d)
  {
  }

  lemma HostLostIsSound(c: Client)
    requires LinkSound(c)
    ensures LinkSound(HostLost(c)) && ShownSoundly(HostLost(c))
  {
  }

  /** `loop` keeps the link sound and leaves a state that says exactly what it is. */
  lemma RestKeepsLink(c: Client, now: Tick, monoPoll: int, monoStart: int)
    requires LinkSound(c)
    ensures LinkSound(Rest(c, now, monoPoll, monoStart)) && ShownSoundly(Rest(c, now, monoPoll, monoStart))
  {
    if !c.haveHost {
      SweptKeepsLink(c, now);
      PendingKeepsLink(Swept(c.(state := if c.roleCollision then Failed else Connecting), now), now);
    } else if Sub32(now, c.lastAnnounceRxMs) > ANNOUNCE_TIMEOUT_MS {
      HostLostIsSound(c);
      PendingKeepsLink(HostLost(c), now);
    } else if c.failStreak >= SEND_FAIL_STREAK_LIMIT {
      HostLostIsSound(c.(failStreak := 0));
      PendingKeepsLink(HostLost(c.(failStreak := 0)), now);
    } else {
      var shown := c.(state := LinkedState(c));
      assert LinkSound(shown) && ShownSoundly(shown);
      var d := SyncServed(shown, now, monoPoll, monoStart);
      SyncServedKeepsLink(shown, now, monoPoll, monoStart);
      var e := BurstPolled(d, now);
      BurstKeepsLink(d, now);
      PendingKeepsLink(e, now);
      assert Rest(c, now, monoPoll, monoStart) == PendingPolled(e, now);
    }
  }

  /** In every reachable state, at any value of the wrapping clock: no host means no burst under
      way, no sync under way and an unsynced clock; Ready means linked and synced; and after each
      `loop` the state shown is exactly what the link is. */
  lemma {:induction false} LinkIsSound(role: int, steps: seq<Step>)
    ensures LinkSound(After(Begun(role), steps))
    ensures steps != [] && steps[|steps| - 1].LoopRest? ==> ShownSoundly(After(Begun(role), steps))
    decreases |steps|
  {
    if steps != [] {
      var c, s := After(Begun(role), steps[..|steps| - 1]), steps[|steps| - 1];
      LinkIsSound(role, steps[..|steps| - 1]);
      match s
      case Receive(pkt, now, t3, mono) => HandledKeepsLink(c, pkt, now, t3, mono);
      case LoopRest(now, monoPoll, monoStart) => RestKeepsLink(c, now, monoPoll, monoStart);
      case Send(payload, burst3, now, radioOk) => SendKeepsLink(c, payload, burst3, now, radioOk);
      case Reported(ok) =>
    }
  }

  // ---------------------------------------------------------------- whom the client listens to

  datatype Received = Received(pkt: Packet, t3: int, mono: int)

  /** The receive queue, drained by one call of `loop`. */
  function Drained(c: Client, rs: seq<Received>, now: Tick): (c': Client)
    decreases |rs|
  {
    if rs == [] then c else Drained(Handled(c, rs[0].pkt, now, rs[0].t3, rs[0].mono), rs[1..], now)
  }

  function From(rs: seq<Received>, mac: int): (out: seq<Received>)
    decreases |rs|
  {
    if rs == [] then [] else if rs[0].pkt.mac == mac then [rs[0]] + From(rs[1..], mac) else From(rs[1..], mac)
  }

  /** While linked, only the host is heard: draining the queue is draining the host's frames alone,
      however many frames of other senders lie between them, and the link stays with that host. */
  lemma {:induction false} OnlyTheHostIsHeard(c: Client, rs: seq<Received>, now: Tick)
    requires c.haveHost
    ensures Drained(c, rs, now) == Drained(c, From(rs, c.hostMac), now)
    ensures Drained(c, rs, now).haveHost && Drained(c, rs, now).hostMac == c.hostMac
    decreases |rs|
  {
    if rs != [] {
      var d := Handled(c, rs[0].pkt, now, rs[0].t3, rs[0].mono);
      OnlyTheHostIsHeard(d, rs[1..], now);
      assert rs[0].pkt.mac == c.hostMac ==> From(rs, c.hostMac)[1..] == From(rs[1..], c.hostMac);
    }
  }

  ghost predicate HasAnnounce(rs: seq<Received>) {
    exists j :: 0 <= j < |rs| && rs[j].pkt.Announce?
  }

  /** While unlinked, the client links to the sender of the first announce with another role; if
      there is none it changes in nothing but that an announce of its own role is remembered as a
      collision. */
  lemma {:induction false} LinksToFirstOtherRole(c: Client, rs: seq<Received>, now: Tick, i: int)
    requires !c.haveHost && 0 <= i <= |rs|
    requires forall j :: 0 <= j < i ==> rs[j].pkt.Announce? ==> rs[j].pkt.hostRole == c.role
    requires i < |rs| ==> rs[i].pkt.Announce? && rs[i].pkt.hostRole != c.role
    ensures var d := Drained(c, rs, now);
            if i < |rs| then d.haveHost && d.hostMac == rs[i].pkt.mac
            else d == c.(roleCollision := c.roleCollision || HasAnnounce(rs))
    decreases |rs|
  {
    if rs != [] {
      var d := Handled(c, rs[0].pkt, now, rs[0].t3, rs[0].mono);
      var rest := rs[1..];
      if i == 0 { OnlyTheHostIsHeard(d, rest, now); }
      else { LinksToFirstOtherRole(d, rest, now, i - 1); }
      assert forall j :: 0 <= j < |rest| ==> rest[j] == rs[j + 1];
      assert HasAnnounce(rest) ==> HasAnnounce(rs);
      assert HasAnnounce(rs) && !rs[0].pkt.Announce? ==> HasAnnounce(rest) by {
        if HasAnnounce(rs) && !rs[0].pkt.Announce? {
          var j :| 0 <= j < |rs| && rs[j].pkt.Announce?;
          assert rest[j - 1] == rs[j];
        }
      }
    }
  }
}
