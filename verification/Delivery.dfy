/** From the wire to the course: the deduplicating ledger and the single worker
    (internal/store/sensor.go InsertSensorEvent, internal/timing/timing.go handleTrigger), fed by
    any number of sensor boots over a network that may lose, repeat and reorder. */
module Delivery {
  import opened Common
  import opened SensorDevice
  import EQ = EdgeQueue

  /** The UNIQUE key of sensor_events. */
  datatype Key = Key(sensor: Sensor, bootId: int, no: int)

  function KeyOf(t: Trigger): (k: Key) {
    Key(t.sensor, t.bootId, t.no)
  }

  /** A packet as the worker meets it: the active event at that moment, and whether the database
      takes writes. */
  datatype Arrival = Arrival(trigger: Trigger, eventId: Option<int>, writable: bool)

  /** `calls` is history: the triggers for which SensorStart or SensorGoal was called, in order. */
  datatype Server = Server(ledger: map<Key, Option<int>>, calls: seq<Trigger>)

  const Empty: Server := Server(map[], [])

  datatype Insertion = Inserted | Duplicate | Failed

  function InsertOutcome(s: Server, k: Key, writable: bool): (r: Insertion) {
    if !writable then Failed else if k in s.ledger then Duplicate else Inserted
  }

  function Handled(s: Server, a: Arrival): (s': Server) {
    match InsertOutcome(s, KeyOf(a.trigger), a.writable)
    case Failed => s
    case Duplicate => s
    case Inserted =>
      var recorded := s.(ledger := s.ledger[KeyOf(a.trigger) := a.eventId]);
      if a.eventId.None? then recorded else recorded.(calls := s.calls + [a.trigger])
  }

  function After(arrivals: seq<Arrival>): (s: Server)
    decreases |arrivals|
  {
    if arrivals == [] then Empty else Handled(After(arrivals[..|arrivals| - 1]), arrivals[|arrivals| - 1])
  }

  // ---------------------------------------------------------------- which arrivals count

  /** Arrival i is the first of its key that was written. */
  predicate IsFirst(arrivals: seq<Arrival>, i: int)
    requires 0 <= i < |arrivals|
  {
    && arrivals[i].writable
    && forall j :: 0 <= j < i && KeyOf(arrivals[j].trigger) == KeyOf(arrivals[i].trigger) ==> !arrivals[j].writable
  }

  /** The first arrivals that found an event active, in order of arrival. */
  function Effective(arrivals: seq<Arrival>): (ts: seq<Trigger>)
    decreases |arrivals|
  {
    if arrivals == [] then []
    else
      var k := |arrivals| - 1;
      Effective(arrivals[..k]) + if IsFirst(arrivals, k) && arrivals[k].eventId.Some? then [arrivals[k].trigger] else []
  }

  lemma {:induction false} LedgerHoldsTheWritten(arrivals: seq<Arrival>, key: Key)
    ensures key in After(arrivals).ledger <==> exists i :: 0 <= i < |arrivals| && arrivals[i].writable && KeyOf(arrivals[i].trigger) == key
    decreases |arrivals|
  {
    if arrivals != [] {
      var k := |arrivals| - 1;
      LedgerHoldsTheWritten(arrivals[..k], key);
      assert forall i :: 0 <= i < k ==> arrivals[..k][i] == arrivals[i];
      if arrivals[k].writable && KeyOf(arrivals[k].trigger) == key { assert key in After(arrivals).ledger; }
      if i :| 0 <= i < |arrivals| && arrivals[i].writable && KeyOf(arrivals[i].trigger) == key {
        if i < k { assert arrivals[..k][i].writable && KeyOf(arrivals[..k][i].trigger) == key; }
      }
    }
  }

  /** And for each the event that was active when it was first written. */
  lemma {:induction false} LedgerHoldsTheEvent(arrivals: seq<Arrival>, i: int)
    requires 0 <= i < |arrivals| && IsFirst(arrivals, i)
    ensures var key := KeyOf(arrivals[i].trigger); var ledger := After(arrivals).ledger; key in ledger && ledger[key] == arrivals[i].eventId
    decreases |arrivals|
  {
    var k := |arrivals| - 1;
    var before := arrivals[..k];
    LedgerHoldsTheWritten(before, KeyOf(arrivals[i].trigger));
    assert forall j :: 0 <= j < k ==> before[j] == arrivals[j];
    if i < k {
      FirstStays(arrivals, k, i);
      LedgerHoldsTheEvent(before, i);
    }
  }

  /** The course is called for exactly the effective arrivals, in the order they arrived. */
  lemma {:induction false} CallsAreEffective(arrivals: seq<Arrival>)
    ensures After(arrivals).calls == Effective(arrivals)
    decreases |arrivals|
  {
    if arrivals != [] {
      var k := |arrivals| - 1;
      CallsAreEffective(arrivals[..k]);
      LedgerHoldsTheWritten(arrivals[..k], KeyOf(arrivals[k].trigger));
      assert forall i :: 0 <= i < k ==> arrivals[..k][i] == arrivals[i];
    }
  }

  function CallsFor(calls: seq<Trigger>, key: Key): (n: nat)
    decreases |calls|
  {
    if calls == [] then 0
    else CallsFor(calls[..|calls| - 1], key) + if KeyOf(calls[|calls| - 1]) == key then 1 else 0
  }

  lemma CallsForMore(calls: seq<Trigger>, t: Trigger, key: Key)
    ensures CallsFor(calls + [t], key) == CallsFor(calls, key) + if KeyOf(t) == key then 1 else 0
  {
    assert (calls + [t])[..|calls|] == calls;
  }

  /** Some arrival of this key is the first written and finds an event active. */
  ghost predicate TakesEffect(arrivals: seq<Arrival>, key: Key) {
    exists i :: 0 <= i < |arrivals| && KeyOf(arrivals[i].trigger) == key && IsFirst(arrivals, i) && arrivals[i].eventId.Some?
  }

  lemma FirstStays(arrivals: seq<Arrival>, k: int, i: int)
    requires 0 <= i < k <= |arrivals|
    ensures IsFirst(arrivals[..k], i) <==> IsFirst(arrivals, i)
  {
    assert forall j :: 0 <= j <= i ==> arrivals[..k][j] == arrivals[j];
  }

  lemma EffectGrows(arrivals: seq<Arrival>, key: Key)
    requires arrivals != []
    ensures var k := |arrivals| - 1;
            TakesEffect(arrivals, key) <==>
              TakesEffect(arrivals[..k], key) || (KeyOf(arrivals[k].trigger) == key && IsFirst(arrivals, k) && arrivals[k].eventId.Some?)
  {
    var k := |arrivals| - 1;
    if TakesEffect(arrivals[..k], key) {
      var i :| 0 <= i < k && KeyOf(arrivals[..k][i].trigger) == key && IsFirst(arrivals[..k], i) && arrivals[..k][i].eventId.Some?;
      FirstStays(arrivals, k, i);
    }
    if TakesEffect(arrivals, key) {
      var i :| 0 <= i < |arrivals| && KeyOf(arrivals[i].trigger) == key && IsFirst(arrivals, i) && arrivals[i].eventId.Some?;
      if i < k { FirstStays(arrivals, k, i); assert KeyOf(arrivals[..k][i].trigger) == key; }
    }
  }

  lemma NotFirstAgain(arrivals: seq<Arrival>, key: Key)
    requires arrivals != [] && TakesEffect(arrivals[..|arrivals| - 1], key) && KeyOf(arrivals[|arrivals| - 1].trigger) == key
    ensures !IsFirst(arrivals, |arrivals| - 1)
  {
    var k := |arrivals| - 1;
    var i :| 0 <= i < k && KeyOf(arrivals[..k][i].trigger) == key && IsFirst(arrivals[..k], i) && arrivals[..k][i].eventId.Some?;
    assert arrivals[i].writable;
  }

  /** Per key the course is called once or not at all: once exactly when a copy is the first to be
      written and an event is active at that moment. */
  lemma {:induction false} AtMostOnce(arrivals: seq<Arrival>, key: Key)
    ensures CallsFor(After(arrivals).calls, key) == if TakesEffect(arrivals, key) then 1 else 0
    decreases |arrivals|
  {
    CallsAreEffective(arrivals);
    if arrivals != [] {
      var k := |arrivals| - 1;
      AtMostOnce(arrivals[..k], key);
      CallsAreEffective(arrivals[..k]);
      OneMoreArrival(arrivals, key);
    }
  }

  lemma OneMoreArrival(arrivals: seq<Arrival>, key: Key)
    requires arrivals != []
    requires CallsFor(Effective(arrivals[..|arrivals| - 1]), key) == if TakesEffect(arrivals[..|arrivals| - 1], key) then 1 else 0
    ensures CallsFor(Effective(arrivals), key) == if TakesEffect(arrivals, key) then 1 else 0
  {
    var k := |arrivals| - 1;
    var before, last := arrivals[..k], arrivals[k];
    EffectGrows(arrivals, key);
    CallsForMore(Effective(before), last.trigger, key);
    if TakesEffect(before, key) && KeyOf(last.trigger) == key { NotFirstAgain(arrivals, key); }
    var now := IsFirst(arrivals, k) && last.eventId.Some?;
    assert Effective(arrivals) == Effective(before) + if now then [last.trigger] else [];
    assert Effective(before) + [] == Effective(before);
  }

  lemma {:induction false} CallsComeFromArrivals(arrivals: seq<Arrival>, t: Trigger)
    requires t in After(arrivals).calls
    ensures exists i :: 0 <= i < |arrivals| && arrivals[i].trigger == t
    decreases |arrivals|
  {
    if arrivals != [] {
      var k := |arrivals| - 1;
      if t in After(arrivals[..k]).calls {
        CallsComeFromArrivals(arrivals[..k], t);
        var i :| 0 <= i < k && arrivals[..k][i].trigger == t;
        assert arrivals[i].trigger == t;
      } else {
        assert arrivals[k].trigger == t;
      }
    }
  }

  // ---------------------------------------------------------------- from edge to course call

  /** One boot of a sensor, and all that happened to it. */
  datatype Boot = Boot(role: Sensor, bootId: int, drains: seq<Drain>)

  function Emitted(b: Boot): (ts: seq<Trigger>) {
    DeviceAfter(Booted(b.role, b.bootId), b.drains).emitted
  }

  /** Each boot of a sensor drew its own boot id, and sent fewer than 2^32 triggers. */
  ghost predicate Distinguished(boots: seq<Boot>) {
    && (forall x, y :: 0 <= x < y < |boots| ==> boots[x].role != boots[y].role || boots[x].bootId != boots[y].bootId)
    && (forall x :: 0 <= x < |boots| ==> |Emitted(boots[x])| <= U32)
  }

  /** Trigger i of boot x. */
  predicate IsEdge(boots: seq<Boot>, x: int, i: int) {
    0 <= x < |boots| && 0 <= i < |Emitted(boots[x])|
  }

  lemma EmittedAreNumbered(b: Boot)
    ensures forall i :: 0 <= i < |Emitted(b)| ==>
              Emitted(b)[i].sensor == b.role && Emitted(b)[i].bootId == b.bootId && Emitted(b)[i].no == (i + 1) % U32
  {
    BootedIsSound(b.role, b.bootId);
    DeviceRuns(Booted(b.role, b.bootId), b.drains);
    TriggersAreNumbered(b.role, b.bootId, DeviceAfter(Booted(b.role, b.bootId), b.drains).verdicts);
  }

  /** No two accepted edges, of any boots of any sensors, share a key. */
  lemma KeysAreDistinct(boots: seq<Boot>, x: int, i: int, y: int, j: int)
    requires Distinguished(boots) && IsEdge(boots, x, i) && IsEdge(boots, y, j)
    requires KeyOf(Emitted(boots[x])[i]) == KeyOf(Emitted(boots[y])[j])
    ensures x == y && i == j
  {
    EmittedAreNumbered(boots[x]);
    EmittedAreNumbered(boots[y]);
    SameNumberIff(i, j);
    assert 0 <= i < U32 && 0 <= j < U32;
  }

  /** What the network may do: deliver, in any order and any number of times, nothing but triggers
      that some boot sent. */
  ghost predicate Carries(boots: seq<Boot>, arrivals: seq<Arrival>) {
    forall k :: 0 <= k < |arrivals| ==> exists x, i :: IsEdge(boots, x, i) && arrivals[k].trigger == Emitted(boots[x])[i]
  }

  /** How often the course is called with exactly this trigger. */
  lemma {:induction false} CallsOfTrigger(calls: seq<Trigger>, t: Trigger)
    requires forall u :: u in calls && KeyOf(u) == KeyOf(t) ==> u == t
    ensures multiset(calls)[t] == CallsFor(calls, KeyOf(t))
    decreases |calls|
  {
    if calls != [] {
      var last := calls[|calls| - 1];
      assert calls == calls[..|calls| - 1] + [last];
      assert last in calls;
      CallsOfTrigger(calls[..|calls| - 1], t);
    }
  }

  /** The trigger of an accepted edge makes the course act at most once, with the edge's own sensor
      and time, under any loss, repetition and reordering of packets and any failing writes; and
      exactly once precisely when the first written copy finds an event active. */
  lemma OneCallPerEdge(boots: seq<Boot>, arrivals: seq<Arrival>, x: int, i: int)
    requires Distinguished(boots) && Carries(boots, arrivals) && IsEdge(boots, x, i)
    ensures var t := Emitted(boots[x])[i];
            multiset(After(arrivals).calls)[t] == if TakesEffect(arrivals, KeyOf(t)) then 1 else 0
  {
    var t := Emitted(boots[x])[i];
    var calls := After(arrivals).calls;
    forall u | u in calls && KeyOf(u) == KeyOf(t) ensures u == t {
      CallsComeFromArrivals(arrivals, u);
      var k :| 0 <= k < |arrivals| && arrivals[k].trigger == u;
      var y, j :| IsEdge(boots, y, j) && arrivals[k].trigger == Emitted(boots[y])[j];
      KeysAreDistinct(boots, x, i, y, j);
    }
    CallsOfTrigger(calls, t);
    AtMostOnce(arrivals, KeyOf(t));
  }

  /** And the course is never called for anything but an accepted edge. */
  lemma NoCallWithoutEdge(boots: seq<Boot>, arrivals: seq<Arrival>, t: Trigger)
    requires Carries(boots, arrivals) && t in After(arrivals).calls
    ensures exists x, i :: IsEdge(boots, x, i) && t == Emitted(boots[x])[i]
  {
    CallsComeFromArrivals(arrivals, t);
    var k :| 0 <= k < |arrivals| && arrivals[k].trigger == t;
    assert exists x, i :: IsEdge(boots, x, i) && arrivals[k].trigger == Emitted(boots[x])[i];
  }

  lemma WrappedNumber(ts: seq<Trigger>, role: Sensor, bootId: int, i: int)
    requires forall j :: 0 <= j < |ts| ==> ts[j].sensor == role && ts[j].bootId == bootId && ts[j].no == (j + 1) % U32
    requires 0 <= i && i + U32 < |ts|
    ensures KeyOf(ts[i + U32]) == KeyOf(ts[i])
  {
    EQ.NextIndex(U32, i + 1);
  }

  /** Past 2^32 triggers of one boot the numbering repeats, and an edge whose number was taken
      before is a copy to the server: it never reaches the course. */
  lemma WrappedTriggerIsSwallowed(b: Boot, i: int, arrivals: seq<Arrival>, k: int, m: int)
    requires 0 <= i && i + U32 < |Emitted(b)| && 0 <= k < m < |arrivals|
    requires arrivals[k].writable && arrivals[k].trigger == Emitted(b)[i]
    requires arrivals[m].trigger == Emitted(b)[i + U32]
    ensures !IsFirst(arrivals, m)
  {
    EmittedAreNumbered(b);
    WrappedNumber(Emitted(b), b.role, b.bootId, i);
  }

  // ---------------------------------------------------------------- the worker as it runs

  class Store {
    var sensorEvents: map<Key, Option<int>>

    constructor ()
      ensures sensorEvents == map[]
    {
      sensorEvents := map[];
    }

    method InsertSensorEvent(key: Key, eventId: Option<int>, writable: bool) returns (r: Insertion)
      modifies this
      ensures r == if !writable then Failed else if key in old(sensorEvents) then Duplicate else Inserted
      ensures sensorEvents == if r == Inserted then old(sensorEvents)[key := eventId] else old(sensorEvents)
    {
      if !writable { return Failed; }
      if key in sensorEvents { return Duplicate; }
      sensorEvents := sensorEvents[key := eventId];
      return Inserted;
    }
  }

  class Dispatcher {
    const store: Store
    ghost var calls: seq<Trigger>

    ghost function St(): (s: Server)
      reads this, store
    {
      Server(store.sensorEvents, calls)
    }

    constructor ()
      ensures St() == Empty && fresh(store)
    {
      calls := [];
      store := new Store();
    }

    /** Returns the trigger to hand to the course, if any. */
    method HandleTrigger(t: Trigger, eventId: Option<int>, writable: bool) returns (call: Option<Trigger>)
      modifies this, store
      ensures St() == Handled(old(St()), Arrival(t, eventId, writable))
      ensures calls == old(calls) + if call.Some? then [call.value] else []
    {
      var r := store.InsertSensorEvent(KeyOf(t), eventId, writable);
      match r
      case Failed => return None;
      case Duplicate => return None;
      case Inserted =>
        if eventId.None? { return None; }
        calls := calls + [t];
        return Some(t);
    }

    /** The single worker, over the packets its channel brings. */
    method Run(arrivals: seq<Arrival>)
      requires St() == Empty
      modifies this, store
      ensures St() == After(arrivals)
    {
      var i := 0;
      while i < |arrivals|
        invariant 0 <= i <= |arrivals|
        invariant St() == After(arrivals[..i])
      {
        assert arrivals[..i + 1][..i] == arrivals[..i];
        var _ := HandleTrigger(arrivals[i].trigger, arrivals[i].eventId, arrivals[i].writable);
        i := i + 1;
      }
      assert arrivals[..i] == arrivals;
    }
  }
}
