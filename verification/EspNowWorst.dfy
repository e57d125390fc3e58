/** The bound on the client's stamping error is reached: a run of the client, its link never lost
    and its host answering honestly, that is as far off after n resyncs as any run can be. */
module EspNowWorst {
  import opened Common
  import opened EspNow
  import opened EspNowRuns
  import TB = TimeBase
  import OF = OffsetFilter

  const HOST: int := 1

  /** The millisecond clock at ms; the microsecond clock then reads 1000 times ms. */
  function TickAt(ms: nat): (t: Tick) {
    ms % U32
  }

  function Heard(role: int, ms: nat): (s: Step) {
    Receive(Announce(HOST, 0, 1, role + 1, true), TickAt(ms), 1000 * ms, 1000 * ms)
  }

  function Looped(ms: nat): (s: Step) {
    LoopRest(TickAt(ms), 1000 * ms, 1000 * ms)
  }

  /** One call of `loop` with an announce waiting. */
  function Alive(role: int, ms: nat): (steps: seq<Step>) {
    [Heard(role, ms), Looped(ms)]
  }

  /** The i-th reply to a sync begun at ms, each d milliseconds after its request, `out`
      microseconds of which it was on the way there; both hosts have the same clock. */
  function Reply(ms: nat, d: nat, out: nat, i: nat): (s: Step) {
    var t1 := 1000 * (ms + i * d);
    Receive(TimeResp(HOST, t1, t1 + out, t1 + out), TickAt(ms + i * d + d), t1 + 1000 * d, t1 + 1000 * d)
  }

  function Replies(ms: nat, d: nat, out: nat, n: nat): (steps: seq<Step>) {
    if n == 0 then [] else Replies(ms, d, out, n - 1) + [Reply(ms, d, out, n - 1)]
  }

  /** The host is heard every ten seconds. */
  function Quiet(role: int, ms: nat, n: nat): (steps: seq<Step>) {
    if n == 0 then [] else Quiet(role, ms, n - 1) + Alive(role, ms + 10_000 * n)
  }

  function Sync(role: int, ms: nat, d: nat, out: nat): (steps: seq<Step>) {
    Alive(role, ms) + Replies(ms, d, out, SYNC_EXCHANGE_COUNT)
  }

  /** A sync and the rest of its five minutes. */
  function Period(role: int, ms: nat, d: nat, out: nat): (steps: seq<Step>) {
    Sync(role, ms, d, out) + Quiet(role, ms, 29)
  }

  // ---------------------------------------------------------------- running it

  /** The states a run goes through, from the first to the last. */
  ghost predicate Trace(c: Client, steps: seq<Step>, states: seq<Client>) {
    && |states| == |steps| + 1 && states[0] == c
    && forall i :: 0 <= i < |steps| ==> states[i + 1] == Apply(states[i], steps[i])
  }

  /** `After(c, steps) == d`, said by a trace. */
  ghost predicate Reaches(c: Client, steps: seq<Step>, d: Client) {
    exists states :: Trace(c, steps, states) && states[|steps|] == d
  }

  lemma TracesJoin(c: Client, xs: seq<Step>, s: seq<Client>, ys: seq<Step>, t: seq<Client>)
    requires Trace(c, xs, s) && Trace(s[|xs|], ys, t)
    ensures Trace(c, xs + ys, s + t[1..]) && (s + t[1..])[|xs + ys|] == t[|ys|]
  {
    var all, zs := s + t[1..], xs + ys;
    forall i | 0 <= i < |zs| ensures all[i + 1] == Apply(all[i], zs[i]) {
      if i < |xs| { assert s[i + 1] == Apply(s[i], xs[i]); }
      else {
        var k := i - |xs|;
        assert t[k + 1] == Apply(t[k], ys[k]);
        assert all[i + 1] == t[k + 1] && all[i] == t[k] && zs[i] == ys[k];
      }
    }
  }

  lemma ReachesBoth(c: Client, xs: seq<Step>, m: Client, ys: seq<Step>, d: Client)
    requires Reaches(c, xs, m) && Reaches(m, ys, d)
    ensures Reaches(c, xs + ys, d)
  {
    var s :| Trace(c, xs, s) && s[|xs|] == m;
    var t :| Trace(m, ys, t) && t[|ys|] == d;
    TracesJoin(c, xs, s, ys, t);
  }

  lemma ReachesNothing(c: Client)
    ensures Reaches(c, [], c)
  {
    assert Trace(c, [], [c]);
  }

  lemma ReachesOne(c: Client, s: Step)
    ensures Reaches(c, [s], Apply(c, s))
  {
    assert Trace(c, [s], [c, Apply(c, s)]);
  }

  lemma ReachesTwo(c: Client, s: Step, t: Step)
    ensures Reaches(c, [s, t], Apply(Apply(c, s), t))
  {
    assert Trace(c, [s, t], [c, Apply(c, s), Apply(Apply(c, s), t)]);
  }

  lemma {:induction false} TraceIsAfter(c: Client, steps: seq<Step>, states: seq<Client>)
    requires Trace(c, steps, states)
    ensures After(c, steps) == states[|steps|]
    decreases |steps|
  {
    if steps != [] {
      var k := |steps| - 1;
      assert Trace(c, steps[..k], states[..k + 1]) by {
        forall i | 0 <= i < k ensures states[..k + 1][i + 1] == Apply(states[..k + 1][i], steps[..k][i]) {
          assert states[i + 1] == Apply(states[i], steps[i]);
        }
      }
      TraceIsAfter(c, steps[..k], states[..k + 1]);
      assert states[k + 1] == Apply(states[k], steps[k]);
    }
  }

  lemma ReachesIsAfter(c: Client, steps: seq<Step>, d: Client)
    requires Reaches(c, steps, d)
    ensures After(c, steps) == d
  {
    var states :| Trace(c, steps, states) && states[|steps|] == d;
    TraceIsAfter(c, steps, states);
  }

  /** Linked to the host, with nothing to relay, and never yet unlinked. */
  predicate Linked(c: Client, role: int) {
    && c.role == role && c.haveHost && c.hostMac == HOST && !c.roleCollision && c.hostUplinkUp
    && c.failStreak == 0 && !c.burst.active && !c.pending.active
    && LinkLost !in c.syncs
  }

  /** Begun or linked, and about to sync. */
  predicate Due(c: Client, role: int, now: Tick) {
    && (c == Begun(role) || Linked(c, role))
    && c.phase == Idle
    && (c.lastSyncStartMs == 0 || Sub32(now, c.lastSyncStartMs) >= RESYNC_INTERVAL_MS)
  }

  /** The sync begun at tick `start` is done. */
  predicate Resting(c: Client, role: int, start: Tick) {
    Linked(c, role) && c.phase == Idle && c.lastSyncStartMs == start
  }

  function OffsetAfter(d: nat, out: nat): (us: int) {
    TruncDiv(2 * out - 1000 * d, 2)
  }

  predicate Fast(d: nat) {
    1000 * d <= OF.MAX_DELAY_US
  }

  /** The sync begun at tick `start` has had n replies. */
  predicate Under(c: Client, role: int, start: Tick, d: nat, out: nat, n: nat) {
    && Linked(c, role) && c.phase == Exchanging && c.exchangesDone == n && c.lastSyncStartMs == start
    && c.filter == if n == 0 || !Fast(d) then OF.Empty else OF.Best(true, 1000 * d, OffsetAfter(d, out))
  }

  predicate SameClock(c: Client, d: Client) {
    d.clock == c.clock && d.resyncs == c.resyncs
  }

  lemma SyncBegins(c: Client, role: int, ms: nat, d: nat, out: nat) returns (b: Client)
    requires Due(c, role, TickAt(ms))
    ensures Reaches(c, Alive(role, ms), b)
    ensures Under(b, role, TickAt(ms), d, out, 0) && SameClock(c, b) && b.syncs == c.syncs + [Started(TickAt(ms))]
  {
    b := Apply(Apply(c, Heard(role, ms)), Looped(ms));
    ReachesTwo(c, Heard(role, ms), Looped(ms));
  }

  /** What the last reply does to the clock: a resync if the exchanges were fast enough. */
  predicate ClockMoves(c: Client, b: Client, ms: nat, d: nat, out: nat) {
    var m := 1000 * (ms + SYNC_EXCHANGE_COUNT * d);
    if Fast(d) then b.clock == TB.Resynced(c.clock, m + OffsetAfter(d, out), m) && b.resyncs == if c.clock.synced then c.resyncs + 1 else 0
    else SameClock(c, b)
  }

  lemma ReplyArrives(c: Client, role: int, start: Tick, ms: nat, d: nat, out: nat, n: nat) returns (b: Client)
    requires Under(c, role, start, d, out, n) && n < SYNC_EXCHANGE_COUNT
    ensures Reaches(c, [Reply(ms, d, out, n)], b)
    ensures if n < SYNC_EXCHANGE_COUNT - 1 then
              Under(b, role, start, d, out, n + 1) && SameClock(c, b) && b.syncs == c.syncs + [Advanced]
            else
              Resting(b, role, start) && ClockMoves(c, b, ms, d, out) && b.syncs == c.syncs + [Advanced] + [Finished]
  {
    b := Apply(c, Reply(ms, d, out, n));
    ReachesOne(c, Reply(ms, d, out, n));
  }

  lemma {:induction false} RepliesArrive(c: Client, role: int, start: Tick, ms: nat, d: nat, out: nat, n: nat) returns (b: Client)
    requires Under(c, role, start, d, out, 0) && n < SYNC_EXCHANGE_COUNT
    ensures Reaches(c, Replies(ms, d, out, n), b)
    ensures Under(b, role, start, d, out, n) && SameClock(c, b) && |b.syncs| == |c.syncs| + n && c.syncs <= b.syncs
    decreases n
  {
    if n == 0 {
      b := c;
      ReachesNothing(c);
    } else {
      var a := RepliesArrive(c, role, start, ms, d, out, n - 1);
      b := ReplyArrives(a, role, start, ms, d, out, n - 1);
      ReachesBoth(c, Replies(ms, d, out, n - 1), a, [Reply(ms, d, out, n - 1)], b);
    }
  }

  lemma SyncRuns(c: Client, role: int, ms: nat, d: nat, out: nat) returns (b: Client)
    requires Due(c, role, TickAt(ms))
    ensures Reaches(c, Sync(role, ms, d, out), b)
    ensures Resting(b, role, TickAt(ms)) && ClockMoves(c, b, ms, d, out)
    ensures |b.syncs| == |c.syncs| + 7 && FinishedSyncFrom(b, TickAt(ms))
  {
    var last, start := SYNC_EXCHANGE_COUNT - 1, TickAt(ms);
    var begun := SyncBegins(c, role, ms, d, out);
    var four := RepliesArrive(begun, role, start, ms, d, out, last);
    b := ReplyArrives(four, role, start, ms, d, out, last);
    ReachesBoth(begun, Replies(ms, d, out, last), four, [Reply(ms, d, out, last)], b);
    ReachesBoth(c, Alive(role, ms), begun, Replies(ms, d, out, SYNC_EXCHANGE_COUNT), b);
    assert four.syncs[|c.syncs|] == Started(start);
  }

  // ---------------------------------------------------------------- the wrapping clock

  lemma Apart(x: nat, d: nat)
    requires d < U32
    ensures Sub32((x + d) % U32, x % U32) == d
  {
    var q, r := x / U32, x % U32;
    assert x == U32 * q + r;
    assert (x + d) % U32 == (r + d) % U32;
  }

  /** Syncs begin at these instants, five minutes apart, and so never at tick 0. */
  predicate OnGrid(ms: nat) {
    ms % 32 == 8
  }

  lemma GridGoesOn(ms: nat, k: nat)
    requires OnGrid(ms)
    ensures OnGrid(ms + 300_000 * k)
  {
    GridFrom(ms + 300_000 * k, ms / 32 + 9375 * k);
  }

  lemma GridFrom(ms: nat, q: int)
    requires ms == 32 * q + 8
    ensures OnGrid(ms)
  {
  }

  lemma OnGridIsNotZero(ms: nat)
    requires OnGrid(ms)
    ensures TickAt(ms) != 0
  {
    var q := ms / U32;
    assert ms == U32 * q + TickAt(ms);
    assert U32 * q == 32 * (134_217_728 * q);
  }

  lemma QuietLoop(c: Client, role: int, start: Tick, ms: nat) returns (d: Client)
    requires Resting(c, role, start) && start != 0 && Sub32(TickAt(ms), start) < RESYNC_INTERVAL_MS
    ensures Reaches(c, Alive(role, ms), d) && Resting(d, role, start) && SameClock(c, d)
  {
    d := Apply(Apply(c, Heard(role, ms)), Looped(ms));
    ReachesTwo(c, Heard(role, ms), Looped(ms));
  }

  lemma QuietStep(c: Client, role: int, ms: nat, n: nat) returns (d: Client)
    requires Resting(c, role, TickAt(ms)) && TickAt(ms) != 0 && n <= 29
    ensures Reaches(c, Alive(role, ms + 10_000 * n), d) && Resting(d, role, TickAt(ms)) && SameClock(c, d)
  {
    var start := TickAt(ms);
    Apart(ms, 10_000 * n);
    d := QuietLoop(c, role, start, ms + 10_000 * n);
  }

  lemma {:induction false} StaysQuiet(c: Client, role: int, ms: nat, n: nat) returns (d: Client)
    requires Resting(c, role, TickAt(ms)) && TickAt(ms) != 0 && n <= 29
    ensures Reaches(c, Quiet(role, ms, n), d) && Resting(d, role, TickAt(ms)) && SameClock(c, d)
    decreases n
  {
    if n == 0 {
      d := c;
      ReachesNothing(c);
    } else {
      var b := StaysQuiet(c, role, ms, n - 1);
      d := QuietStep(b, role, ms, n);
      ReachesBoth(c, Quiet(role, ms, n - 1), b, Alive(role, ms + 10_000 * n), d);
    }
  }

  lemma PeriodRuns(c: Client, role: int, ms: nat, d: nat, out: nat) returns (b: Client)
    requires Due(c, role, TickAt(ms)) && OnGrid(ms)
    ensures Reaches(c, Period(role, ms, d, out), b)
    ensures Linked(b, role) && Due(b, role, TickAt(ms + 300_000)) && ClockMoves(c, b, ms, d, out)
  {
    var a := SyncRuns(c, role, ms, d, out);
    OnGridIsNotZero(ms);
    b := StaysQuiet(a, role, ms, 29);
    ReachesBoth(c, Sync(role, ms, d, out), a, Quiet(role, ms, 29), b);
    Apart(ms, 300_000);
  }

  // ---------------------------------------------------------------- the worst run

  /** n times five minutes in which every exchange is too slow to be used. */
  function Idling(role: int, ms: nat, n: nat): (steps: seq<Step>) {
    if n == 0 then [] else Idling(role, ms, n - 1) + Period(role, ms + 300_000 * (n - 1), 30, 15_000)
  }

  lemma IdlePeriod(c: Client, role: int, ms: nat, n: nat) returns (d: Client)
    requires Linked(c, role) && Due(c, role, TickAt(ms + 300_000 * n)) && OnGrid(ms)
    ensures Reaches(c, Period(role, ms + 300_000 * n, 30, 15_000), d)
    ensures Linked(d, role) && Due(d, role, TickAt(ms + 300_000 * n + 300_000)) && SameClock(c, d)
  {
    GridGoesOn(ms, n);
    d := PeriodRuns(c, role, ms + 300_000 * n, 30, 15_000);
  }

  lemma {:induction false} IdlingKeepsTheClock(c: Client, role: int, ms: nat, n: nat) returns (d: Client)
    requires Linked(c, role) && Due(c, role, TickAt(ms)) && OnGrid(ms)
    ensures Reaches(c, Idling(role, ms, n), d)
    ensures Linked(d, role) && Due(d, role, TickAt(ms + 300_000 * n)) && SameClock(c, d)
    decreases n
  {
    if n == 0 {
      d := c;
      ReachesNothing(c);
    } else {
      var at := ms + 300_000 * (n - 1);
      var b := IdlingKeepsTheClock(c, role, ms, n - 1);
      d := IdlePeriod(b, role, ms, n - 1);
      ReachesBoth(c, Idling(role, ms, n - 1), b, Period(role, at, 30, 15_000), d);
    }
  }

  /** When the sync of the k-th resync begins: k times five minutes after the one before. */
  function WorstStartMs(k: nat): (ms: nat) {
    if k == 0 then 1000 else WorstStartMs(k - 1) + 300_000 * k
  }

  lemma {:induction false} WorstStartsOnGrid(k: nat)
    ensures OnGrid(WorstStartMs(k)) && TB.WorstMono(k) == 1000 * (WorstStartMs(k) + 100)
  {
    if k > 0 {
      WorstStartsOnGrid(k - 1);
      GridGoesOn(WorstStartMs(k - 1), k);
    }
  }

  /** The five minutes of the k-th resync, its exchanges all the way there for an even k and all the
      way back for an odd one, and then those that bring none. */
  function WorstStretch(role: int, ms: nat, k: nat): (steps: seq<Step>) {
    Period(role, ms, 20, if k % 2 == 1 then 0 else 20_000) + Idling(role, ms + 300_000, k)
  }

  function WorstSteps(role: int, n: nat): (steps: seq<Step>) {
    (if n == 0 then [] else WorstSteps(role, n - 1)) + WorstStretch(role, WorstStartMs(n), n)
  }

  lemma StretchRuns(c: Client, role: int, ms: nat, k: nat) returns (d: Client)
    requires Due(c, role, TickAt(ms)) && OnGrid(ms) && TB.WorstMono(k) == 1000 * (ms + 100)
    ensures Reaches(c, WorstStretch(role, ms, k), d)
    ensures Linked(d, role) && Due(d, role, TickAt(ms + 300_000 * (k + 1)))
    ensures d.clock == TB.Resynced(c.clock, TB.WorstSample(k).wall, TB.WorstSample(k).mono)
    ensures d.resyncs == if c.clock.synced then c.resyncs + 1 else 0
  {
    var out: nat := if k % 2 == 1 then 0 else 20_000;
    var b := PeriodRuns(c, role, ms, 20, out);
    GridGoesOn(ms, 1);
    assert ms + 300_000 + 300_000 * k == ms + 300_000 * (k + 1);
    d := IdlingKeepsTheClock(b, role, ms + 300_000, k);
    ReachesBoth(c, Period(role, ms, 20, out), b, Idling(role, ms + 300_000, k), d);
  }

  /** The client after n resyncs of the worst run. */
  ghost predicate AtWorst(c: Client, role: int, n: nat) {
    && Linked(c, role) && Due(c, role, TickAt(WorstStartMs(n + 1)))
    && c.clock == TB.ResyncedBy(TB.WorstStart(), TB.WorstRun(n)) && c.clock.synced && c.resyncs == n
  }

  lemma WorstBegins(role: int) returns (c: Client)
    ensures Reaches(Begun(role), WorstSteps(role, 0), c) && AtWorst(c, role, 0)
  {
    var ms := WorstStartMs(0);
    WorstStartsOnGrid(0);
    c := StretchRuns(Begun(role), role, ms, 0);
    ReachesNothing(Begun(role));
    ReachesBoth(Begun(role), [], Begun(role), WorstStretch(role, ms, 0), c);
  }

  lemma WorstGoesOn(b: Client, role: int, n: nat) returns (c: Client)
    requires AtWorst(b, role, n)
    ensures Reaches(b, WorstStretch(role, WorstStartMs(n + 1), n + 1), c) && AtWorst(c, role, n + 1)
  {
    WorstStartsOnGrid(n + 1);
    c := StretchRuns(b, role, WorstStartMs(n + 1), n + 1);
    assert WorstStartMs(n + 2) == WorstStartMs(n + 1) + 300_000 * (n + 2);
    TB.ResyncedByOneMore(TB.WorstStart(), TB.WorstRun(n), TB.WorstSample(n + 1));
  }

  lemma {:induction false} WorstStepsRun(role: int, n: nat) returns (c: Client)
    ensures Reaches(Begun(role), WorstSteps(role, n), c) && AtWorst(c, role, n)
    decreases n
  {
    if n == 0 {
      c := WorstBegins(role);
    } else {
      var b := WorstStepsRun(role, n - 1);
      c := WorstGoesOn(b, role, n - 1);
      ReachesBoth(Begun(role), WorstSteps(role, n - 1), b, WorstStretch(role, WorstStartMs(n), n), c);
    }
  }

  // ---------------------------------------------------------------- its honesty

  ghost predicate GenuineStep(s: Step) {
    s.Receive? && s.pkt.TimeResp? ==> OF.IsGenuine(0, OF.Sample(s.pkt.t1, s.pkt.t2rx, s.pkt.t2tx, s.t3))
  }

  ghost predicate AllGenuine(steps: seq<Step>) {
    forall i :: 0 <= i < |steps| ==> GenuineStep(steps[i])
  }

  lemma BothGenuine(xs: seq<Step>, ys: seq<Step>)
    requires AllGenuine(xs) && AllGenuine(ys)
    ensures AllGenuine(xs + ys)
  {
  }

  lemma {:induction false} GenuineIsHonest(role: int, steps: seq<Step>)
    requires AllGenuine(steps)
    ensures HonestRun(0, role, steps)
    decreases |steps|
  {
    if steps != [] {
      GenuineIsHonest(role, steps[..|steps| - 1]);
      assert GenuineStep(steps[|steps| - 1]);
    }
  }

  lemma {:induction false} RepliesGenuine(ms: nat, d: nat, out: nat, n: nat)
    requires out <= 1000 * d
    ensures AllGenuine(Replies(ms, d, out, n))
    decreases n
  {
    if n > 0 {
      RepliesGenuine(ms, d, out, n - 1);
      var t1 := 1000 * (ms + (n - 1) * d);
      OF.Witness(0, OF.Sample(t1, t1 + out, t1 + out, t1 + 1000 * d), out, 0, 1000 * d - out);
      BothGenuine(Replies(ms, d, out, n - 1), [Reply(ms, d, out, n - 1)]);
    }
  }

  lemma {:induction false} QuietGenuine(role: int, ms: nat, n: nat)
    ensures AllGenuine(Quiet(role, ms, n))
    decreases n
  {
    if n > 0 {
      QuietGenuine(role, ms, n - 1);
      BothGenuine(Quiet(role, ms, n - 1), Alive(role, ms + 10_000 * n));
    }
  }

  lemma PeriodGenuine(role: int, ms: nat, d: nat, out: nat)
    requires out <= 1000 * d
    ensures AllGenuine(Period(role, ms, d, out))
  {
    RepliesGenuine(ms, d, out, SYNC_EXCHANGE_COUNT);
    QuietGenuine(role, ms, 29);
    BothGenuine(Alive(role, ms), Replies(ms, d, out, SYNC_EXCHANGE_COUNT));
    BothGenuine(Sync(role, ms, d, out), Quiet(role, ms, 29));
  }

  lemma {:induction false} IdlingGenuine(role: int, ms: nat, n: nat)
    ensures AllGenuine(Idling(role, ms, n))
    decreases n
  {
    if n > 0 {
      var at := ms + 300_000 * (n - 1);
      IdlingGenuine(role, ms, n - 1);
      PeriodGenuine(role, at, 30, 15_000);
      BothGenuine(Idling(role, ms, n - 1), Period(role, at, 30, 15_000));
    }
  }

  lemma StretchGenuine(role: int, ms: nat, k: nat)
    ensures AllGenuine(WorstStretch(role, ms, k))
  {
    var out: nat := if k % 2 == 1 then 0 else 20_000;
    PeriodGenuine(role, ms, 20, out);
    IdlingGenuine(role, ms + 300_000, k);
    BothGenuine(Period(role, ms, 20, out), Idling(role, ms + 300_000, k));
  }

  lemma {:induction false} WorstGenuine(role: int, n: nat)
    ensures AllGenuine(WorstSteps(role, n))
    decreases n
  {
    var before, ms := if n == 0 then [] else WorstSteps(role, n - 1), WorstStartMs(n);
    if n > 0 { WorstGenuine(role, n - 1); }
    StretchGenuine(role, ms, n);
    BothGenuine(before, WorstStretch(role, ms, n));
  }

  lemma WorstIsHonest(role: int, n: nat) returns (steps: seq<Step>, c: Client)
    ensures AllGenuine(steps) && Reaches(Begun(role), steps, c)
    ensures c.resyncs == n && c.clock.synced && LinkLost !in c.syncs
    ensures TB.Abs(TB.WallAt(c.clock, TB.WorstMono(n + 1)) - TB.WorstMono(n + 1)) == TB.Worst(n) * SLACK
  {
    steps := WorstSteps(role, n);
    WorstGenuine(role, n);
    c := WorstStepsRun(role, n);
    TB.ErrorGrowsWithoutBound(n, c.clock);
  }

  /** The bound of EdgesAreStampedWithin is reached by the client, for every n: there is a run, its
      link never lost and every reply honest, that is Worst(n) times 10 ms off after n resyncs. */
  lemma BoundIsReached(role: int, n: nat) returns (steps: seq<Step>, c: Client, m: int)
    ensures c == After(Begun(role), steps) && HonestRun(0, role, steps)
    ensures c.resyncs == n && c.clock.synced && LinkLost !in c.syncs
    ensures TB.Abs(TB.WallAt(c.clock, m) - m) == TB.Worst(n) * SLACK
  {
    steps, c := WorstIsHonest(role, n);
    GenuineIsHonest(role, steps);
    ReachesIsAfter(Begun(role), steps, c);
    m := TB.WorstMono(n + 1);
  }

  // ---------------------------------------------------------------- tick 0

  lemma BegunIsDue(role: int, now: Tick)
    ensures Due(Begun(role), role, now) && Begun(role).syncs == []
  {
  }

  lemma ThenAgain(b: Client, role: int, ms: nat) returns (c: Client)
    requires Resting(b, role, 0) && |b.syncs| == 7 && FinishedSyncFrom(b, 0)
    ensures Reaches(b, Alive(role, ms), c) && Linked(c, role) && c.phase == Exchanging
    ensures |c.syncs| == 8 && c.syncs[0] == Started(0) && c.syncs[6] == Finished && c.syncs[7] == Started(TickAt(ms))
  {
    c := SyncBegins(b, role, ms, 20, 10_000);
  }

  lemma ZeroThenAgain(role: int, zero: nat, again: nat) returns (steps: seq<Step>, c: Client)
    requires TickAt(zero) == 0
    ensures Reaches(Begun(role), steps, c) && Linked(c, role) && c.phase == Exchanging
    ensures |c.syncs| == 8 && c.syncs[0] == Started(0) && c.syncs[6] == Finished && c.syncs[7] == Started(TickAt(again))
  {
    BegunIsDue(role, TickAt(zero));
    var b := SyncRuns(Begun(role), role, zero, 20, 10_000);
    c := ThenAgain(b, role, again);
    steps := Sync(role, zero, 20, 10_000) + Alive(role, again);
    ReachesBoth(Begun(role), Sync(role, zero, 20, 10_000), b, Alive(role, again), c);
  }

  /** There is a run whose first sync begins at tick 0 and is followed by another one a tenth of a
      second later, the link never lost. */
  lemma TickZeroSyncsTwice(role: int) returns (steps: seq<Step>, c: Client)
    ensures c == After(Begun(role), steps) && c.phase == Exchanging && LinkLost !in c.syncs
    ensures |c.syncs| == 8 && c.syncs[0] == Started(0) && c.syncs[6] == Finished && c.syncs[7] == Started(100)
  {
    steps, c := ZeroThenAgain(role, 0, 100);
    ReachesIsAfter(Begun(role), steps, c);
  }
}
