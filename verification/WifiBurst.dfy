/** The burst of three of the Wi-Fi uplink (firmware/src/uplink_wifi.cpp sendToServer, pollBurst):
    the first copy at once, two more from the loop, each at least 50 ms after the one before. */
module WifiBurst {
  import opened Common

  type Tick = t: int | 0 <= t < U32 witness 0

  const BURST_GAP_MS: int := 50
  const PAYLOAD_CAP: int := 192

  /** A packet on the wire. `burst` is history: the running number of the burst, 0 for a heartbeat. */
  datatype Packet = Packet(payload: string, burst: int)

  /** `sent`, `bursts`, `texts` and `cut` are history: the packets sent, how many bursts were begun,
      what the k-th was to say, and which were still unfinished when the next began. */
  datatype Uplink = Uplink(payload: string, remaining: int, nextAtMs: Tick, active: bool,
                           sent: seq<Packet>, bursts: int, texts: seq<string>, cut: set<int>)

  const Idle: Uplink := Uplink("", 0, 0, false, [], 0, [], {})

  predicate Due(u: Uplink, now: Tick) {
    u.active && Sub32(now, u.nextAtMs) < U32 / 2
  }

  datatype SendResult = SendResult(uplink: Uplink, ok: bool)

  function Sent(u: Uplink, payload: string, burst3: bool, now: Tick): (r: SendResult) {
    if |payload| >= PAYLOAD_CAP then SendResult(u, false)
    else if !burst3 then SendResult(u.(sent := u.sent + [Packet(payload, 0)]), true)
    else
      var no := u.bursts + 1;
      SendResult(Uplink(payload, 2, (now + BURST_GAP_MS) % U32, true, u.sent + [Packet(payload, no)], no,
                        u.texts + [payload], if u.active then u.cut + {u.bursts} else u.cut), true)
  }

  function Polled(u: Uplink, now: Tick): (u': Uplink) {
    if !Due(u, now) then u
    else
      var left := (u.remaining - 1) % 256;
      var copied := u.(remaining := left, sent := u.sent + [Packet(u.payload, u.bursts)]);
      if left == 0 then copied.(active := false) else copied.(nextAtMs := (now + BURST_GAP_MS) % U32)
  }

  datatype Step = Send(payload: string, burst3: bool, now: Tick) | Poll(now: Tick)

  function Apply(u: Uplink, s: Step): (u': Uplink) {
    match s
    case Send(payload, burst3, now) => Sent(u, payload, burst3, now).uplink
    case Poll(now) => Polled(u, now)
  }

  function After(steps: seq<Step>): (u: Uplink)
    decreases |steps|
  {
    if steps == [] then Idle else Apply(After(steps[..|steps| - 1]), steps[|steps| - 1])
  }

  function Copies(sent: seq<Packet>, burst: int): (n: nat)
    decreases |sent|
  {
    if sent == [] then 0
    else Copies(sent[..|sent| - 1], burst) + if sent[|sent| - 1].burst == burst then 1 else 0
  }

  lemma OneMore(sent: seq<Packet>, p: Packet, burst: int)
    ensures Copies(sent + [p], burst) == Copies(sent, burst) + if p.burst == burst then 1 else 0
  {
    assert (sent + [p])[..|sent|] == sent;
  }

  /** What is on the wire of burst b: at least one copy and at most three, and three exactly when
      nothing cut it short. */
  ghost predicate BurstIs(u: Uplink, b: int) {
    && 1 <= Copies(u.sent, b) <= 3
    && (b in u.cut ==> Copies(u.sent, b) <= 2)
    && (b == u.bursts && u.active ==> Copies(u.sent, b) + u.remaining == 3 && b !in u.cut)
    && (b !in u.cut && !(b == u.bursts && u.active) ==> Copies(u.sent, b) == 3)
  }

  ghost predicate Sound(u: Uplink) {
    && u.bursts == |u.texts| && (forall b :: b in u.cut ==> 1 <= b < u.bursts)
    && (u.active ==> u.bursts >= 1 && 1 <= u.remaining <= 2 && u.payload == u.texts[u.bursts - 1])
    && (forall b :: 1 <= b <= u.bursts ==> BurstIs(u, b))
    && (forall b :: b > u.bursts ==> Copies(u.sent, b) == 0)
    && (forall i :: 0 <= i < |u.sent| ==> 0 <= u.sent[i].burst <= u.bursts)
    && (forall i :: 0 <= i < |u.sent| && u.sent[i].burst >= 1 ==> u.sent[i].payload == u.texts[u.sent[i].burst - 1])
  }

  lemma BegunKeeps(u: Uplink, payload: string, now: Tick)
    requires Sound(u) && |payload| < PAYLOAD_CAP
    ensures Sound(Sent(u, payload, true, now).uplink)
  {
    var v := Sent(u, payload, true, now).uplink;
    forall b ensures Copies(v.sent, b) == Copies(u.sent, b) + if b == v.bursts then 1 else 0 {
      OneMore(u.sent, Packet(payload, v.bursts), b);
    }
    forall b | 1 <= b <= v.bursts ensures BurstIs(v, b) {
      if b <= u.bursts { assert BurstIs(u, b); }
    }
  }

  lemma PolledKeeps(u: Uplink, now: Tick)
    requires Sound(u)
    ensures Sound(Polled(u, now))
  {
    if Due(u, now) {
      var v := Polled(u, now);
      forall b ensures Copies(v.sent, b) == Copies(u.sent, b) + if b == u.bursts then 1 else 0 {
        OneMore(u.sent, Packet(u.payload, u.bursts), b);
      }
      forall b | 1 <= b <= v.bursts ensures BurstIs(v, b) { assert BurstIs(u, b); }
    }
  }

  lemma HeartbeatKeeps(u: Uplink, payload: string, now: Tick)
    requires Sound(u) && |payload| < PAYLOAD_CAP
    ensures Sound(Sent(u, payload, false, now).uplink)
  {
    var v := Sent(u, payload, false, now).uplink;
    forall b | b >= 1 ensures Copies(v.sent, b) == Copies(u.sent, b) { OneMore(u.sent, Packet(payload, 0), b); }
    forall b | 1 <= b <= v.bursts ensures BurstIs(v, b) { assert BurstIs(u, b); }
  }

  /** In every run, at any value of the wrapping clock: a trigger is sent once, twice or three times,
      always in its own words, heartbeats between its copies notwithstanding; and three times
      exactly, unless the next trigger came first or the last copy is still to come. */
  lemma {:induction false} ThreeCopiesUnlessCut(steps: seq<Step>)
    ensures Sound(After(steps))
    decreases |steps|
  {
    if steps != [] {
      var u := After(steps[..|steps| - 1]);
      ThreeCopiesUnlessCut(steps[..|steps| - 1]);
      match steps[|steps| - 1]
      case Send(payload, burst3, now) =>
        if |payload| < PAYLOAD_CAP {
          if burst3 { BegunKeeps(u, payload, now); } else { HeartbeatKeeps(u, payload, now); }
        }
      case Poll(now) => PolledKeeps(u, now);
    }
  }

  /** The triggers handed over that fit a packet, in order. */
  function Handed(steps: seq<Step>, burst3: bool): (texts: seq<string>)
    decreases |steps|
  {
    if steps == [] then []
    else
      var k := |steps| - 1;
      Handed(steps[..k], burst3)
      + if steps[k].Send? && steps[k].burst3 == burst3 && |steps[k].payload| < 192 then [steps[k].payload] else []
  }

  function Beats(sent: seq<Packet>): (texts: seq<string>)
    decreases |sent|
  {
    if sent == [] then []
    else Beats(sent[..|sent| - 1]) + if sent[|sent| - 1].burst == 0 then [sent[|sent| - 1].payload] else []
  }

  lemma OneMoreBeat(sent: seq<Packet>, p: Packet)
    ensures Beats(sent + [p]) == Beats(sent) + if p.burst == 0 then [p.payload] else []
  {
    assert (sent + [p])[..|sent|] == sent;
  }

  /** In every run a burst is begun for each trigger that fits a packet, in order, and each heartbeat
      that does goes out once. */
  lemma {:induction false} AllAreSent(steps: seq<Step>)
    ensures After(steps).texts == Handed(steps, true)
    ensures Beats(After(steps).sent) == Handed(steps, false)
    decreases |steps|
  {
    if steps != [] {
      var k := |steps| - 1;
      var u := After(steps[..k]);
      AllAreSent(steps[..k]);
      ThreeCopiesUnlessCut(steps[..k]);
      match steps[k]
      case Send(payload, burst3, now) =>
        OneMoreBeat(u.sent, Packet(payload, 0));
        OneMoreBeat(u.sent, Packet(payload, u.bursts + 1));
      case Poll(now) => OneMoreBeat(u.sent, Packet(u.payload, u.bursts));
    }
  }

  /** A poll counts when it comes between 50 ms and 2^31 + 50 ms after the copy before, however the
      clock wraps; two such polls complete a burst. */
  lemma TwoPollsComplete(u: Uplink, payload: string, t0: Tick, t1: Tick, t2: Tick)
    requires |payload| < PAYLOAD_CAP
    ensures var v := Polled(Polled(Sent(u, payload, true, t0).uplink, t1), t2);
            !v.active <==> 50 <= Sub32(t1, t0) < U32 / 2 + 50 && 50 <= Sub32(t2, t1) < U32 / 2 + 50
  {
    GapIsElapsed(t0, t1);
    GapIsElapsed(t1, t2);
    GapIsElapsed(t0, t2);
  }

  lemma GapIsElapsed(t: Tick, now: Tick)
    ensures Sub32(now, (t + BURST_GAP_MS) % U32) < U32 / 2 <==> 50 <= Sub32(now, t) < U32 / 2 + 50
  {
    assert 0 <= now - t < U32 ==> Sub32(now, t) == now - t;
    assert now - t < 0 ==> Sub32(now, t) == now - t + U32;
    var at := (t + BURST_GAP_MS) % U32;
    assert at == t + 50 || at == t + 50 - U32;
    assert now - at >= 0 ==> Sub32(now, at) == now - at;
    assert now - at < 0 ==> Sub32(now, at) == now - at + U32;
  }

  class UplinkWifi {
    var payload: string
    var remaining: int
    var nextAtMs: Tick
    var active: bool
    ghost var sent: seq<Packet>
    ghost var bursts: int
    ghost var texts: seq<string>
    ghost var cut: set<int>

    ghost function St(): (u: Uplink)
      reads this
    {
      Uplink(payload, remaining, nextAtMs, active, sent, bursts, texts, cut)
    }

    constructor ()
      ensures St() == Idle
    {
      payload, remaining, nextAtMs, active := "", 0, 0, false;
      sent, bursts, texts, cut := [], 0, [], {};
    }

    method SendToServer(text: string, burst3: bool, nowMs: Tick) returns (ok: bool)
      modifies this
      ensures SendResult(St(), ok) == Sent(old(St()), text, burst3, nowMs)
    {
      if |text| >= PAYLOAD_CAP { return false; }
      if !burst3 {
        sent := sent + [Packet(text, 0)];
        return true;
      }
      if active { cut := cut + {bursts}; }
      bursts, texts := bursts + 1, texts + [text];
      payload := text;
      sent := sent + [Packet(payload, bursts)];
      remaining := 2;
      nextAtMs := (nowMs + BURST_GAP_MS) % U32;
      active := true;
      return true;
    }

    method PollBurst(nowMs: Tick)
      modifies this
      ensures St() == Polled(old(St()), nowMs)
    {
      if !active { return; }
      if Sub32(nowMs, nextAtMs) >= U32 / 2 { return; }
      sent := sent + [Packet(payload, bursts)];
      remaining := (remaining - 1) % 256;
      if remaining == 0 {
        active := false;
      } else {
        nextAtMs := (nowMs + BURST_GAP_MS) % U32;
      }
    }
  }
}
