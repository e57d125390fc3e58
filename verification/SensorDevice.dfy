/** One boot of a sensor, from buffered edge to numbered trigger (firmware/src/main.cpp drainEdges,
    firmware/lib/lockout/lockout.h, firmware/src/identity.h). */
module SensorDevice {
  import opened Common
  import TB = TimeBase
  import EQ = EdgeQueue

  datatype Sensor = StartSensor | GoalSensor

  /** The packet of a trigger; its first three fields are what the server deduplicates by. */
  datatype Trigger = Trigger(sensor: Sensor, bootId: int, no: int, timestampUs: int)

  // ---------------------------------------------------------------- the lockout

  datatype Lock = Lock(have: bool, last: int, windowMs: nat)

  const Fresh: Lock := Lock(false, 0, 10_000)

  predicate Passes(l: Lock, edge: int) {
    !l.have || edge - l.last >= l.windowMs * 1000
  }

  function Judged(l: Lock, edge: int): (l': Lock) {
    if Passes(l, edge) then l.(have := true, last := edge) else l
  }

  /** What happened to an edge, under the window in force and the clock at that moment. */
  datatype Verdict = Verdict(edge: int, windowMs: nat, clock: TB.Clock, accepted: bool)

  /** An edge is accepted exactly when it is at least the window in force after every edge that was
      accepted before it. */
  ghost predicate Debounced(vs: seq<Verdict>) {
    forall j :: 0 <= j < |vs| ==> (vs[j].accepted <==> ClearOfAll(vs, j))
  }

  ghost predicate ClearOfAll(vs: seq<Verdict>, j: int)
    requires 0 <= j < |vs|
  {
    forall i :: 0 <= i < j && vs[i].accepted ==> vs[j].edge - vs[i].edge >= vs[j].windowMs * 1000
  }

  /** The lock remembers the latest accepted edge, and no accepted edge is later. */
  ghost predicate Remembers(l: Lock, vs: seq<Verdict>) {
    && (l.have <==> exists i :: 0 <= i < |vs| && vs[i].accepted)
    && (l.have ==> exists i :: 0 <= i < |vs| && vs[i].accepted && vs[i].edge == l.last)
    && (forall i :: 0 <= i < |vs| && vs[i].accepted ==> vs[i].edge <= l.last)
  }

  lemma JudgedKeepsDebounce(l: Lock, vs: seq<Verdict>, edge: int, clock: TB.Clock)
    requires Debounced(vs) && Remembers(l, vs)
    ensures var vs' := vs + [Verdict(edge, l.windowMs, clock, Passes(l, edge))];
            Debounced(vs') && Remembers(Judged(l, edge), vs')
  {
    var v := Verdict(edge, l.windowMs, clock, Passes(l, edge));
    var vs' := vs + [v];
    assert forall i :: 0 <= i < |vs| ==> vs'[i] == vs[i];
    assert vs'[|vs|] == v;
    forall j | 0 <= j < |vs'| ensures vs'[j].accepted <==> ClearOfAll(vs', j) {
      if j < |vs| {
        assert vs[j].accepted <==> ClearOfAll(vs, j);
        assert ClearOfAll(vs', j) <==> ClearOfAll(vs, j);
      } else if l.have {
        var i :| 0 <= i < |vs| && vs[i].accepted && vs[i].edge == l.last;
        assert vs'[i].accepted;
      }
    }
    if Judged(l, edge).have && !Passes(l, edge) {
      var i :| 0 <= i < |vs| && vs[i].accepted && vs[i].edge == l.last;
      assert vs'[i].accepted && vs'[i].edge == l.last;
    }
  }

  // ---------------------------------------------------------------- from edge to trigger

  /** `emitted` and `verdicts` are history: the triggers handed to the uplink, and what happened
      to each edge that was looked at. */
  datatype Device = Device(role: Sensor, bootId: int, lock: Lock, triggerSeq: int, emitted: seq<Trigger>, verdicts: seq<Verdict>)

  function Booted(role: Sensor, bootId: int): (d: Device) {
    Device(role, bootId, Fresh, 0, [], [])
  }

  /** An edge popped while the clock is not synced leaves no trace, not even in the lockout. */
  function EdgeDrained(d: Device, edge: int, clock: TB.Clock): (d': Device) {
    if !clock.synced then d
    else
      var ok := Passes(d.lock, edge);
      var judged := d.(lock := Judged(d.lock, edge), verdicts := d.verdicts + [Verdict(edge, d.lock.windowMs, clock, ok)]);
      if !ok then judged
      else
        var no := (d.triggerSeq + 1) % U32;
        judged.(triggerSeq := no, emitted := d.emitted + [Trigger(d.role, d.bootId, no, TB.WallAt(clock, edge))])
  }

  function EdgesDrained(d: Device, edges: seq<int>, clock: TB.Clock): (d': Device)
    decreases |edges|
  {
    if edges == [] then d else EdgesDrained(EdgeDrained(d, edges[0], clock), edges[1..], clock)
  }

  /** One call of drainEdges: the uplink's window and clock, and the edges found in the queue. */
  datatype Drain = Drain(edges: seq<int>, clock: TB.Clock, windowMs: nat)

  function Drained(d: Device, drain: Drain): (d': Device) {
    EdgesDrained(d.(lock := d.lock.(windowMs := drain.windowMs)), drain.edges, drain.clock)
  }

  function DeviceAfter(d: Device, drains: seq<Drain>): (d': Device)
    decreases |drains|
  {
    if drains == [] then d else DeviceAfter(Drained(d, drains[0]), drains[1..])
  }

  /** The triggers that belong to a list of verdicts: one for each accepted edge, in order,
      numbered from 1 modulo 2^32, stamped by the clock of the moment. */
  function TriggersOf(role: Sensor, bootId: int, vs: seq<Verdict>): (ts: seq<Trigger>)
    decreases |vs|
  {
    if vs == [] then []
    else
      var before, v := TriggersOf(role, bootId, vs[..|vs| - 1]), vs[|vs| - 1];
      if !v.accepted then before
      else before + [Trigger(role, bootId, (|before| + 1) % U32, TB.WallAt(v.clock, v.edge))]
  }

  ghost predicate DeviceSound(d: Device) {
    && Debounced(d.verdicts) && Remembers(d.lock, d.verdicts)
    && d.emitted == TriggersOf(d.role, d.bootId, d.verdicts)
    && d.triggerSeq == |d.emitted| % U32
  }

  lemma CountWraps(n: int)
    requires n >= 0
    ensures (n % U32 + 1) % U32 == (n + 1) % U32
  {
    EQ.NextIndex(U32, n);
  }

  lemma TriggersOfMore(role: Sensor, bootId: int, vs: seq<Verdict>, v: Verdict)
    ensures TriggersOf(role, bootId, vs + [v]) ==
            TriggersOf(role, bootId, vs) +
            if v.accepted then [Trigger(role, bootId, (|TriggersOf(role, bootId, vs)| + 1) % U32, TB.WallAt(v.clock, v.edge))] else []
  {
    assert (vs + [v])[..|vs|] == vs;
  }

  lemma EdgeKeepsTriggers(d: Device, edge: int, clock: TB.Clock)
    requires d.emitted == TriggersOf(d.role, d.bootId, d.verdicts) && d.triggerSeq == |d.emitted| % U32
    ensures var e := EdgeDrained(d, edge, clock);
            e.emitted == TriggersOf(d.role, d.bootId, e.verdicts) && e.triggerSeq == |e.emitted| % U32
  {
    if clock.synced {
      var v := Verdict(edge, d.lock.windowMs, clock, Passes(d.lock, edge));
      CountWraps(|d.emitted|);
      TriggersOfMore(d.role, d.bootId, d.verdicts, v);
      assert EdgeDrained(d, edge, clock).verdicts == d.verdicts + [v];
    }
  }

  lemma EdgeKeepsDevice(d: Device, edge: int, clock: TB.Clock)
    requires DeviceSound(d)
    ensures DeviceSound(EdgeDrained(d, edge, clock))
  {
    EdgeKeepsTriggers(d, edge, clock);
    if clock.synced { JudgedKeepsDebounce(d.lock, d.verdicts, edge, clock); }
  }

  lemma {:induction false} EdgesKeepDevice(d: Device, edges: seq<int>, clock: TB.Clock)
    requires DeviceSound(d)
    ensures DeviceSound(EdgesDrained(d, edges, clock))
    ensures EdgesDrained(d, edges, clock).role == d.role && EdgesDrained(d, edges, clock).bootId == d.bootId
    decreases |edges|
  {
    if edges != [] {
      EdgeKeepsDevice(d, edges[0], clock);
      EdgesKeepDevice(EdgeDrained(d, edges[0], clock), edges[1..], clock);
    }
  }

  /** In every run of a boot, under any changes of the window and the clock: edges are accepted
      exactly as the lockout promises, and the triggers handed on are exactly those of the accepted
      edges, numbered in order. */
  lemma {:induction false} DeviceRuns(d: Device, drains: seq<Drain>)
    requires DeviceSound(d)
    ensures var e := DeviceAfter(d, drains); DeviceSound(e) && e.role == d.role && e.bootId == d.bootId
    decreases |drains|
  {
    if drains != [] {
      EdgesKeepDevice(d.(lock := d.lock.(windowMs := drains[0].windowMs)), drains[0].edges, drains[0].clock);
      DeviceRuns(Drained(d, drains[0]), drains[1..]);
    }
  }

  lemma BootedIsSound(role: Sensor, bootId: int)
    ensures DeviceSound(Booted(role, bootId))
  {
  }

  // ---------------------------------------------------------------- from the edges drained

  /** An edge as it is drained: the window in force and the clock at that moment. */
  datatype Look = Look(edge: int, windowMs: nat, clock: TB.Clock)

  function Looks(edges: seq<int>, windowMs: nat, clock: TB.Clock): (ls: seq<Look>)
    ensures |ls| == |edges| && forall i :: 0 <= i < |ls| ==> ls[i] == Look(edges[i], windowMs, clock)
  {
    seq(|edges|, i requires 0 <= i < |edges| => Look(edges[i], windowMs, clock))
  }

  function LookedIn(drain: Drain): (ls: seq<Look>) {
    if drain.clock.synced then Looks(drain.edges, drain.windowMs, drain.clock) else []
  }

  /** The edges drained while the clock was synced, in order. */
  function Looked(drains: seq<Drain>): (ls: seq<Look>)
    decreases |drains|
  {
    if drains == [] then [] else LookedIn(drains[0]) + Looked(drains[1..])
  }

  /** What the verdicts were passed on. */
  function LooksOf(vs: seq<Verdict>): (ls: seq<Look>)
    ensures |ls| == |vs| && forall i :: 0 <= i < |vs| ==> ls[i] == Look(vs[i].edge, vs[i].windowMs, vs[i].clock)
  {
    seq(|vs|, i requires 0 <= i < |vs| => Look(vs[i].edge, vs[i].windowMs, vs[i].clock))
  }

  lemma EdgeIsJudged(d: Device, edge: int, clock: TB.Clock)
    ensures var e := EdgeDrained(d, edge, clock);
            && e.lock.windowMs == d.lock.windowMs
            && LooksOf(e.verdicts) == LooksOf(d.verdicts) + if clock.synced then [Look(edge, d.lock.windowMs, clock)] else []
  {
    assert LooksOf(d.verdicts) + [] == LooksOf(d.verdicts);
  }

  lemma {:induction false} EdgesAreJudged(d: Device, edges: seq<int>, clock: TB.Clock)
    requires clock.synced
    ensures LooksOf(EdgesDrained(d, edges, clock).verdicts) == LooksOf(d.verdicts) + Looks(edges, d.lock.windowMs, clock)
    decreases |edges|
  {
    if edges == [] {
      assert LooksOf(d.verdicts) + Looks([], d.lock.windowMs, clock) == LooksOf(d.verdicts);
    } else {
      var l, rest := Look(edges[0], d.lock.windowMs, clock), Looks(edges[1..], d.lock.windowMs, clock);
      EdgeIsJudged(d, edges[0], clock);
      EdgesAreJudged(EdgeDrained(d, edges[0], clock), edges[1..], clock);
      Associates(LooksOf(d.verdicts), [l], rest);
      assert [l] + rest == Looks(edges, d.lock.windowMs, clock);
    }
  }

  /** A drain with an unsynced clock throws its edges away and changes nothing but the window. */
  lemma UnsyncedDrain(d: Device, drain: Drain)
    requires !drain.clock.synced
    ensures Drained(d, drain) == d.(lock := d.lock.(windowMs := drain.windowMs))
  {
    EdgesAreIgnored(d.(lock := d.lock.(windowMs := drain.windowMs)), drain.edges, drain.clock);
  }

  lemma {:induction false} EdgesAreIgnored(d: Device, edges: seq<int>, clock: TB.Clock)
    requires !clock.synced
    ensures EdgesDrained(d, edges, clock) == d
    decreases |edges|
  {
    if edges != [] { EdgesAreIgnored(d, edges[1..], clock); }
  }

  lemma DrainIsJudged(d: Device, drain: Drain)
    ensures LooksOf(Drained(d, drain).verdicts) == LooksOf(d.verdicts) + LookedIn(drain)
  {
    if drain.clock.synced {
      EdgesAreJudged(d.(lock := d.lock.(windowMs := drain.windowMs)), drain.edges, drain.clock);
    } else {
      UnsyncedDrain(d, drain);
      assert LooksOf(d.verdicts) + [] == LooksOf(d.verdicts);
    }
  }

  /** Every edge drained while the clock was synced gets a verdict, in order, and no other does. */
  lemma {:induction false} DrainsAreJudged(d: Device, drains: seq<Drain>)
    ensures LooksOf(DeviceAfter(d, drains).verdicts) == LooksOf(d.verdicts) + Looked(drains)
    decreases |drains|
  {
    if drains == [] {
      assert LooksOf(d.verdicts) + Looked(drains) == LooksOf(d.verdicts);
    } else {
      DrainIsJudged(d, drains[0]);
      DrainsAreJudged(Drained(d, drains[0]), drains[1..]);
      Associates(LooksOf(d.verdicts), LookedIn(drains[0]), Looked(drains[1..]));
    }
  }

  lemma Associates(a: seq<Look>, b: seq<Look>, c: seq<Look>)
    ensures a + b + c == a + (b + c)
  {
  }

  /** Edge j is accepted: it is at least the window in force after every edge accepted before it. */
  predicate IsAccepted(ls: seq<Look>, j: int)
    requires 0 <= j < |ls|
    decreases j
  {
    forall i :: 0 <= i < j && IsAccepted(ls, i) ==> ls[j].edge - ls[i].edge >= ls[j].windowMs * 1000
  }

  /** The triggers of the accepted edges, in order: numbered from 1 modulo 2^32, stamped by the
      clock of their drain. */
  function TriggersFor(role: Sensor, bootId: int, ls: seq<Look>): (ts: seq<Trigger>)
    decreases |ls|
  {
    if ls == [] then []
    else
      var k := |ls| - 1;
      var before := TriggersFor(role, bootId, ls[..k]);
      if !IsAccepted(ls, k) then before
      else before + [Trigger(role, bootId, (|before| + 1) % U32, TB.WallAt(ls[k].clock, ls[k].edge))]
  }

  lemma {:induction false} VerdictsAreRight(vs: seq<Verdict>, ls: seq<Look>, j: int)
    requires Debounced(vs) && ls == LooksOf(vs) && 0 <= j < |vs|
    ensures vs[j].accepted <==> IsAccepted(ls, j)
    decreases j
  {
    forall i | 0 <= i < j ensures vs[i].accepted <==> IsAccepted(ls, i) { VerdictsAreRight(vs, ls, i); }
    assert vs[j].accepted <==> ClearOfAll(vs, j);
  }

  lemma FrontDebounced(vs: seq<Verdict>)
    requires Debounced(vs) && vs != []
    ensures Debounced(vs[..|vs| - 1])
  {
    var front := vs[..|vs| - 1];
    forall j | 0 <= j < |front| ensures front[j].accepted <==> ClearOfAll(front, j) {
      assert vs[j].accepted <==> ClearOfAll(vs, j);
      assert ClearOfAll(front, j) <==> ClearOfAll(vs, j);
    }
  }

  lemma {:induction false} TriggersAreFor(role: Sensor, bootId: int, vs: seq<Verdict>)
    requires Debounced(vs)
    ensures TriggersOf(role, bootId, vs) == TriggersFor(role, bootId, LooksOf(vs))
    decreases |vs|
  {
    if vs != [] {
      var k := |vs| - 1;
      FrontDebounced(vs);
      TriggersAreFor(role, bootId, vs[..k]);
      assert LooksOf(vs[..k]) == LooksOf(vs)[..k];
      VerdictsAreRight(vs, LooksOf(vs), k);
    }
  }

  /** In every boot, under any changes of the window and the clock: what is handed to the uplink is
      exactly the triggers of those edges, among all that were drained while the clock was synced,
      that are at least the window in force after every one accepted before them. */
  lemma TriggersOfDrains(role: Sensor, bootId: int, drains: seq<Drain>)
    ensures DeviceAfter(Booted(role, bootId), drains).emitted == TriggersFor(role, bootId, Looked(drains))
    ensures DeviceAfter(Booted(role, bootId), drains).triggerSeq == |TriggersFor(role, bootId, Looked(drains))| % U32
  {
    var d := Booted(role, bootId);
    BootedIsSound(role, bootId);
    DeviceRuns(d, drains);
    DrainsAreJudged(d, drains);
    assert LooksOf([]) + Looked(drains) == Looked(drains);
    TriggersAreFor(role, bootId, DeviceAfter(d, drains).verdicts);
  }

  // ---------------------------------------------------------------- numbering

  lemma {:induction false} TriggersAreNumbered(role: Sensor, bootId: int, vs: seq<Verdict>)
    ensures forall i :: 0 <= i < |TriggersOf(role, bootId, vs)| ==>
              var t := TriggersOf(role, bootId, vs)[i]; t.sensor == role && t.bootId == bootId && t.no == (i + 1) % U32
    decreases |vs|
  {
    if vs != [] { TriggersAreNumbered(role, bootId, vs[..|vs| - 1]); }
  }

  lemma SameNumberIff(i: int, j: int)
    ensures (i + 1) % U32 == (j + 1) % U32 <==> i % U32 == j % U32
  {
    EQ.SameRemainder(U32, i % U32, i);
    if (i + 1) % U32 == (j + 1) % U32 { EQ.SameRemainder(U32, i + 1, j + 1); ShiftedRemainder(i, j); }
    if i % U32 == j % U32 { EQ.SameRemainder(U32, i, j); ShiftedRemainder(i + 1, j + 1); }
  }

  lemma ShiftedRemainder(i: int, j: int)
    requires exists q: int :: j - i == U32 * q
    ensures i % U32 == j % U32
  {
    var q: int :| j - i == U32 * q;
    EQ.Unique(U32, i % U32, j, i / U32 + q);
  }

  /** Two triggers of one boot carry the same key exactly when their running numbers are a multiple
      of 2^32 apart: the key never repeats within the first 2^32 of them. */
  lemma KeysRepeatExactly(role: Sensor, bootId: int, vs: seq<Verdict>, i: int, j: int)
    requires 0 <= i < |TriggersOf(role, bootId, vs)| && 0 <= j < |TriggersOf(role, bootId, vs)|
    ensures var ts := TriggersOf(role, bootId, vs);
            ts[i].no == ts[j].no <==> i % U32 == j % U32
  {
    TriggersAreNumbered(role, bootId, vs);
    SameNumberIff(i, j);
  }

  // ---------------------------------------------------------------- the device as it runs

  class Lockout {
    var have: bool
    var lastAcceptedUs: int
    var windowMs: nat

    function St(): (l: Lock)
      reads this
    {
      Lock(have, lastAcceptedUs, windowMs)
    }

    constructor ()
      ensures St() == Fresh
    {
      have, lastAcceptedUs, windowMs := false, 0, 10_000;
    }

    method SetWindowMs(ms: nat)
      modifies this
      ensures St() == old(St()).(windowMs := ms)
    {
      windowMs := ms;
    }

    method Accept(edgeMonoUs: int) returns (ok: bool)
      modifies this
      ensures ok == Passes(old(St()), edgeMonoUs)
      ensures St() == Judged(old(St()), edgeMonoUs)
    {
      if !have || edgeMonoUs - lastAcceptedUs >= windowMs * 1000 {
        have := true;
        lastAcceptedUs := edgeMonoUs;
        return true;
      }
      return false;
    }
  }

  class Firmware {
    const edgeQueue: EQ.EdgeQueue
    const lockout: Lockout
    const timebase: TB.TimeBase
    const role: Sensor
    const bootId: int
    var triggerSeq: int
    ghost var emitted: seq<Trigger>
    ghost var verdicts: seq<Verdict>

    ghost function St(): (d: Device)
      reads this, lockout
    {
      Device(role, bootId, lockout.St(), triggerSeq, emitted, verdicts)
    }

    ghost function Waiting(): (edges: seq<int>)
      requires edgeQueue.Valid()
      reads this, edgeQueue, edgeQueue.buf
    {
      edgeQueue.accepted[|edgeQueue.popped|..]
    }

    constructor (role: Sensor, bootId: int)
      ensures St() == Booted(role, bootId) && edgeQueue.Valid() && edgeQueue.buf.Length == 8
      ensures fresh(edgeQueue) && fresh(edgeQueue.buf) && fresh(lockout) && fresh(timebase)
    {
      this.role, this.bootId := role, bootId;
      triggerSeq, emitted, verdicts := 0, [], [];
      edgeQueue := new EQ.EdgeQueue(8);
      lockout := new Lockout();
      timebase := new TB.TimeBase();
    }

    /** One popped edge. The trigger packet, if there is one, goes to the uplink. */
    method DrainEdge(edgeMono: int) returns (sent: Option<Trigger>)
      modifies this, lockout
      ensures St() == EdgeDrained(old(St()), edgeMono, timebase.St())
      ensures emitted == old(emitted) + if sent.Some? then [sent.value] else []
    {
      if !timebase.isSynced { return None; }
      verdicts := verdicts + [Verdict(edgeMono, lockout.windowMs, timebase.St(), Passes(lockout.St(), edgeMono))];
      var ok := lockout.Accept(edgeMono);
      if !ok { return None; }
      var tsWallUs := timebase.ToWallUs(edgeMono);
      triggerSeq := (triggerSeq + 1) % U32;
      var t := Trigger(role, bootId, triggerSeq, tsWallUs);
      emitted := emitted + [t];
      return Some(t);
    }

    /** Pops the next edge, if there is one, and deals with it. */
    method DrainNext() returns (popped: bool, sent: Option<Trigger>)
      requires edgeQueue.Valid()
      modifies this, lockout, edgeQueue
      ensures edgeQueue.Valid()
      ensures popped <==> old(Waiting()) != []
      ensures popped ==> old(Waiting()) == [old(Waiting())[0]] + Waiting()
                         && St() == EdgeDrained(old(St()), old(Waiting())[0], timebase.St())
      ensures !popped ==> St() == old(St()) && Waiting() == []
      ensures emitted == old(emitted) + if sent.Some? then [sent.value] else []
    {
      ghost var before := Waiting();
      var edge := edgeQueue.Pop();
      if edge.None? { return false, None; }
      assert before == [edge.value] + Waiting();
      sent := DrainEdge(edge.value);
      popped := true;
    }

    method DrainEdges(windowMs: nat) returns (sent: seq<Trigger>)
      requires edgeQueue.Valid()
      modifies this, lockout, edgeQueue
      ensures edgeQueue.Valid() && Waiting() == []
      ensures St() == Drained(old(St()), Drain(old(Waiting()), timebase.St(), windowMs))
      ensures emitted == old(emitted) + sent
    {
      lockout.SetWindowMs(windowMs);
      sent := [];
      ghost var goal := EdgesDrained(St(), Waiting(), timebase.St());
      var more := true;
      while more
        invariant edgeQueue.Valid()
        invariant EdgesDrained(St(), Waiting(), timebase.St()) == goal
        invariant !more ==> Waiting() == []
        invariant emitted == old(emitted) + sent
        decreases |Waiting()|, if more then 1 else 0
      {
        ghost var waiting := Waiting();
        var t: Option<Trigger>;
        more, t := DrainNext();
        if t.Some? { sent := sent + [t.value]; }
        assert more ==> waiting[1..] == Waiting();
      }
    }
  }
}
