/** The course manager and its handlers as the server runs them: step by step on the store,
    the pending map and the orphan FIFO. Each method is proved to do to the state exactly what
    its function in Course says. */
module CourseManager {
  import opened Common
  import opened QueueTable
  import opened OrphanFifo
  import opened Course
  import Store

  class CourseManager {
    const store: Store.Store
    const fifo: Fifo
    var pending: map<int, Pending>
    var orphanSeq: int
    var warnings: seq<Warning>

    ghost predicate Valid()
      reads this, fifo
    {
      fifo.Valid()
    }

    ghost function St(): (s: State)
      requires Valid()
      reads this, store, fifo, fifo.buf
    {
      State(store.events, store.active, store.nextEvent, store.rows, store.nextQueue,
            store.logs, store.nextLog, pending, fifo.Contents(), orphanSeq, warnings)
    }

    ghost predicate ActiveKnown()
      reads store
    {
      store.active.Some? ==> store.active.value in store.events
    }

    constructor ()
      ensures Valid() && fresh(store) && fresh(fifo) && fresh(fifo.buf) && St() == Empty
    {
      store := new Store.Store();
      fifo := new Fifo();
      pending, orphanSeq, warnings := map[], 0, [];
    }

    // -------------------------------------------------------------- course_manager.go

    /** `row` is the snapshot of row `q` the caller has just read. */
    method FinishCar(q: int, row: Row, goalUs: int, source: Source, now: int) returns (reply: Reply)
      requires Valid() && q in store.rows && store.rows[q] == row
      modifies this`pending, store`logs, store`nextLog
      ensures Valid() && fifo.buf == old(fifo.buf)
      ensures Result(St(), reply) == Course.FinishCar(old(St()), q, goalUs, source, now)
    {
      if row.status != OnCourse { return Conflict; }
      if row.tStart == None { return Conflict; }
      if q in pending { return Conflict; }
      var rawMs := TruncDiv(goalUs - row.tStart.value, 1000);
      if rawMs < 0 { return Conflict; }
      var logId := store.InsertLog(LogRow(row.event, Some(row.driver), Some(row.vehicle), rawMs, row.pt, row.mc,
                                          now, source, false, false, FromFinish(q)));
      pending := pending[q := Pending(logId, rawMs, now + GRACE_MS)];
      return Ok;
    }

    method Confirm(q: int)
      requires Valid()
      modifies this`pending, store`rows
      ensures Valid() && fifo.buf == old(fifo.buf)
      ensures St() == Course.Confirm(old(St()), q).s
    {
      if q !in pending { return; }
      pending := pending - {q};
      store.SetQueueStatus(q, Done);
    }

    method UndoGoal(q: int) returns (reply: Reply)
      requires Valid()
      modifies this`pending, store`logs
      ensures Valid() && fifo.buf == old(fifo.buf)
      ensures Result(St(), reply) == Course.UndoGoal(old(St()), q)
    {
      if q !in pending { return Conflict; }
      var pf := pending[q];
      pending := pending - {q};
      store.HardDeleteLog(pf.logId);
      return Ok;
    }

    /** A place before every waiting row of the event, one before the first of them. */
    method FrontOfWaitingPosition(e: int) returns (p: real)
      ensures p == FrontPosition(store.rows, e)
      ensures forall id :: id in Waitlist(store.rows, e) ==> p + 1.0 <= store.rows[id].position
      ensures if Waitlist(store.rows, e) == [] then p == 0.0
              else exists id :: id in Waitlist(store.rows, e) && p == store.rows[id].position - 1.0
    {
      var waiting := Waitlist(store.rows, e);
      if |waiting| == 0 { return 0.0; }
      var head := waiting[0];
      assert head in waiting;
      forall id | id in waiting ensures store.rows[head].position <= store.rows[id].position {
        var k :| 0 <= k < |waiting| && waiting[k] == id;
        if k > 0 { assert Before(store.rows, Waiting, waiting[0], waiting[k]); }
      }
      return store.rows[head].position - 1.0;
    }

    method UndoStart(q: int, row: Row) returns (reply: Reply)
      requires Valid() && q in store.rows && store.rows[q] == row
      modifies store`rows
      ensures Valid() && fifo.buf == old(fifo.buf)
      ensures Result(St(), reply) == Course.UndoStart(old(St()), q)
    {
      if row.status != OnCourse { return Conflict; }
      if q in pending { return Conflict; }
      var wasArmed := row.tStart == None;

      store.SetStart(q, None);
      if row.pt != 0 {
        var pt := store.SetPT(q, -row.pt);
      }
      if row.mc {
        store.SetMC(q, false);
      }
      assert store.rows == Cleaned(old(store.rows), q);

      if !wasArmed && row.event in store.events && store.events[row.event].sensorMode {
        return Ok;
      }
      store.SetQueueStatus(q, Waiting);
      var p := FrontOfWaitingPosition(row.event);
      var found := store.Reorder(q, p);
      return Ok;
    }

    method Cancel(q: int, row: Row) returns (reply: Reply)
      requires Valid() && q in store.rows && store.rows[q] == row
      modifies store`rows
      ensures Valid() && fifo.buf == old(fifo.buf)
      ensures Result(St(), reply) == Course.Cancel(old(St()), q)
    {
      if row.status != OnCourse { return Conflict; }
      if q in pending { return Conflict; }
      store.SetQueueStatus(q, Canceled);
      return Ok;
    }

    // -------------------------------------------------------------- sensor.go

    method ReportExpired(expired: seq<OrphanRun>)
      modifies this`warnings
      ensures warnings == Warned(old(warnings), expired)
    {
      var i := 0;
      while i < |expired|
        invariant 0 <= i <= |expired|
        invariant warnings == Warned(old(warnings), expired[..i])
      {
        assert expired[..i + 1][..i] == expired[..i];
        warnings := warnings + [StartExpired(expired[i])];
        i := i + 1;
      }
      assert expired[..i] == expired;
    }

    method SensorStart(tUs: int, now: int) returns (reply: Reply)
      requires Valid() && ActiveKnown()
      modifies this, store`rows, fifo, fifo.buf
      ensures Valid() && (fifo.buf == old(fifo.buf) || fresh(fifo.buf))
      ensures Result(St(), reply) == Course.SensorStart(old(St()), tUs, now)
    {
      if store.active == None { return NoTarget; }
      var e := store.active.value;
      var onCourse := ListQueue(store.rows, e, OnCourse);
      var i := 0;
      while i < |onCourse|
        invariant 0 <= i <= |onCourse| && Valid() && fifo.buf == old(fifo.buf)
        invariant St() == old(St())
        invariant FirstReady(store.rows, onCourse) == FirstReady(store.rows, onCourse[i..])
      {
        var q := onCourse[i];
        assert q in onCourse && q in Selected(store.rows, e, OnCourse);
        if store.rows[q].tStart == None {
          var updated := store.SetStartIfUnset(q, tUs);
          if updated { return Ok; }
        }
        assert onCourse[i..][1..] == onCourse[i + 1..];
        i := i + 1;
      }

      QueueRun(e, tUs, now);
      return Ok;
    }

    /** No car is waiting for a start: the trigger becomes an orphan run behind the others. */
    method QueueRun(e: int, tUs: int, now: int)
      requires Valid() && e in store.events
      modifies this`orphanSeq, this`warnings, fifo, fifo.buf
      ensures Valid() && (fifo.buf == old(fifo.buf) || fresh(fifo.buf))
      ensures St() == old(St()).(
        orphans := Kept(old(St()).orphans, tUs, old(St()).events[e].maxSec) + [OrphanRun(old(St()).orphanSeq + 1, tUs, now)],
        orphanSeq := old(St()).orphanSeq + 1,
        warnings := Warned(old(St()).warnings, Pruned(old(St()).orphans, tUs, old(St()).events[e].maxSec)))
    {
      var expired := fifo.Prune(tUs, store.events[e].maxSec);
      orphanSeq := orphanSeq + 1;
      fifo.Append(OrphanRun(orphanSeq, tUs, now));
      ReportExpired(expired);
    }

    method SensorGoal(tUs: int, now: int) returns (reply: Reply)
      requires Valid() && ActiveKnown()
      modifies this, store, fifo, fifo.buf
      ensures Valid() && (fifo.buf == old(fifo.buf) || fresh(fifo.buf))
      ensures Result(St(), reply) == Course.SensorGoal(old(St()), tUs, now)
    {
      if store.active == None { return NoTarget; }
      var e := store.active.value;
      var onCourse := ListQueue(store.rows, e, OnCourse);
      var i := 0;
      while i < |onCourse|
        invariant 0 <= i <= |onCourse| && Valid() && fifo.buf == old(fifo.buf)
        invariant St() == old(St())
        invariant FirstRunning(store.rows, pending, onCourse) == FirstRunning(store.rows, pending, onCourse[i..])
      {
        var q := onCourse[i];
        if store.rows[q].tStart != None && q !in pending {
          reply := FinishCar(q, store.rows[q], tUs, Sensor, now);
          return;
        }
        assert onCourse[i..][1..] == onCourse[i + 1..];
        i := i + 1;
      }
      reply := PairWithOrphan(e, tUs, now);
    }

    /** One section under the lock: drop the expired runs, then take the oldest one left. */
    method PruneAndPop(refUs: int, maxSec: int) returns (run: Option<OrphanRun>, expired: seq<OrphanRun>)
      requires Valid()
      modifies fifo, fifo.buf
      ensures Valid() && fifo.buf == old(fifo.buf)
      ensures expired == Pruned(old(fifo.Contents()), refUs, maxSec)
      ensures var kept := Kept(old(fifo.Contents()), refUs, maxSec);
              && run == (if kept == [] then None else Some(kept[0]))
              && fifo.Contents() == (if kept == [] then [] else kept[1..])
    {
      expired := fifo.Prune(refUs, maxSec);
      run := fifo.PopOldest();
    }

    method PairWithOrphan(e: int, tUs: int, now: int) returns (reply: Reply)
      requires Valid() && e in store.events
      modifies this`warnings, store`logs, store`nextLog, fifo, fifo.buf
      ensures Valid() && fifo.buf == old(fifo.buf)
      ensures Result(St(), reply) == GoalForOrphan(old(St()), e, tUs, now)
    {
      ghost var before := St();
      var run, expired := PruneAndPop(tUs, store.events[e].maxSec);
      ReportExpired(expired);
      if run == None { return NoTarget; }
      ghost var s := before.(orphans := Kept(before.orphans, tUs, before.events[e].maxSec)[1..],
                             warnings := Warned(before.warnings, Pruned(before.orphans, tUs, before.events[e].maxSec)));
      assert St() == s;
      WriteRun(e, run.value, tUs, now);
      return Ok;
    }

    /** The goal of an orphan run: an unassigned log, unless the goal lies before the start. */
    method WriteRun(e: int, run: OrphanRun, tUs: int, now: int)
      requires Valid()
      modifies this`warnings, store`logs, store`nextLog
      ensures Valid() && St() == PairedWith(old(St()), e, run, tUs, now)
    {
      var rawMs := TruncDiv(tUs - run.tStart, 1000);
      if rawMs < 0 {
        warnings := warnings + [GoalBeforeStart(run, tUs)];
        return;
      }
      var logId := store.InsertLog(LogRow(e, None, None, rawMs, 0, false, now, Sensor, false, false, FromOrphan(run)));
      warnings := warnings + [UnassignedLog(run, logId)];
    }

    // -------------------------------------------------------------- admin_course.go, launch.go

    method LaunchHead(clientMs: Option<int>, now: int) returns (reply: Reply)
      requires Valid() && ActiveKnown()
      modifies store`rows
      ensures Valid() && fifo.buf == old(fifo.buf)
      ensures Result(St(), reply) == Course.Launch(old(St()), clientMs, now)
    {
      if store.active == None { return Conflict; }
      var e := store.active.value;
      var waiting := Waitlist(store.rows, e);
      if |waiting| == 0 { return Conflict; }
      var q := waiting[0];
      assert q in waiting && q in Selected(store.rows, e, Waiting);
      var claimed := store.ClaimQueueRow(q, Waiting, OnCourse);
      if !claimed { return Conflict; }
      if store.events[e].sensorMode {
        store.SetStart(q, None);
      } else {
        store.SetStart(q, Some(CorrectedMs(clientMs, now) * 1000));
      }
      return Ok;
    }

    method FindDriver(ids: seq<int>, driver: int) returns (q: Option<int>)
      requires AllIn(store.rows, ids)
      ensures q == FirstOfDriver(store.rows, ids, driver)
    {
      var i := 0;
      while i < |ids|
        invariant 0 <= i <= |ids|
        invariant FirstOfDriver(store.rows, ids, driver) == FirstOfDriver(store.rows, ids[i..], driver)
      {
        if store.rows[ids[i]].driver == driver { return Some(ids[i]); }
        assert ids[i..][1..] == ids[i + 1..];
        i := i + 1;
      }
      return None;
    }

    method MyLaunch(driver: int) returns (reply: Reply)
      requires Valid() && ActiveKnown()
      modifies store`rows
      ensures Valid() && fifo.buf == old(fifo.buf)
      ensures Result(St(), reply) == SelfLaunch(old(St()), driver)
    {
      if store.active == None { return Conflict; }
      var e := store.active.value;
      if !store.events[e].sensorMode { return Conflict; }
      var mine := FindDriver(ListQueue(store.rows, e, OnCourse), driver);
      if mine.Some? { return Conflict; }
      var waiting := Waitlist(store.rows, e);
      if |waiting| == 0 || store.rows[waiting[0]].driver != driver { return Conflict; }
      var q := waiting[0];
      assert q in waiting && q in Selected(store.rows, e, Waiting);
      var claimed := store.ClaimQueueRow(q, Waiting, OnCourse);
      if !claimed { return Conflict; }
      store.SetStart(q, None);
      return Ok;
    }

    method MyLaunchUndo(driver: int) returns (reply: Reply)
      requires Valid()
      modifies store`rows
      ensures Valid() && fifo.buf == old(fifo.buf)
      ensures Result(St(), reply) == SelfLaunchUndo(old(St()), driver)
    {
      if store.active == None { return Conflict; }
      var ids := ListQueue(store.rows, store.active.value, OnCourse);
      var mine := FindDriver(ids, driver);
      if mine == None { return Conflict; }
      FirstOfDriverIsListed(store.rows, ids, driver);
      var row := store.rows[mine.value];
      if row.tStart != None { return Conflict; }
      reply := UndoStart(mine.value, row);
    }

    method StartOldest(clientMs: Option<int>, now: int) returns (reply: Reply)
      requires Valid()
      modifies store`rows
      ensures Valid() && fifo.buf == old(fifo.buf)
      ensures Result(St(), reply) == ManualStart(old(St()), clientMs, now)
    {
      if store.active == None { return Conflict; }
      var onCourse := ListQueue(store.rows, store.active.value, OnCourse);
      var i := 0;
      while i < |onCourse|
        invariant 0 <= i <= |onCourse|
        invariant FirstReady(store.rows, onCourse) == FirstReady(store.rows, onCourse[i..])
      {
        if store.rows[onCourse[i]].tStart == None { break; }
        assert onCourse[i..][1..] == onCourse[i + 1..];
        i := i + 1;
      }
      if i == |onCourse| { return Conflict; }
      var q := onCourse[i];
      assert q in onCourse && q in Selected(store.rows, store.active.value, OnCourse);
      var updated := store.SetStartIfUnset(q, CorrectedMs(clientMs, now) * 1000);
      if !updated { return Conflict; }
      return Ok;
    }

    method FinishOldestCar(clientMs: Option<int>, now: int) returns (reply: Reply)
      requires Valid()
      modifies this`pending, store`logs, store`nextLog
      ensures Valid() && fifo.buf == old(fifo.buf)
      ensures Result(St(), reply) == FinishOldest(old(St()), clientMs, now)
    {
      if store.active == None { return Conflict; }
      var onCourse := ListQueue(store.rows, store.active.value, OnCourse);
      var i := 0;
      while i < |onCourse|
        invariant 0 <= i <= |onCourse|
        invariant FirstRunning(store.rows, pending, onCourse) == FirstRunning(store.rows, pending, onCourse[i..])
      {
        if store.rows[onCourse[i]].tStart != None && onCourse[i] !in pending { break; }
        assert onCourse[i..][1..] == onCourse[i + 1..];
        i := i + 1;
      }
      if i == |onCourse| { return Conflict; }
      reply := FinishCar(onCourse[i], store.rows[onCourse[i]], CorrectedMs(clientMs, now) * 1000, Manual, now);
    }

    /** With the claim and the stamp succeeding; their failures are OrphanFlow's subject. */
    method AdoptOrphan(orphanId: int) returns (reply: Reply)
      requires Valid()
      modifies store`rows, fifo, fifo.buf
      ensures Valid() && (fifo.buf == old(fifo.buf) || fresh(fifo.buf))
      ensures Result(St(), reply) == Adopt(old(St()), orphanId)
    {
      if store.active == None { return Conflict; }
      var e := store.active.value;
      var waiting := Waitlist(store.rows, e);
      if |waiting| == 0 { return Conflict; }
      var q := waiting[0];
      assert q in waiting && q in Selected(store.rows, e, Waiting);
      var run := fifo.Take(orphanId);
      if run == None { return Conflict; }
      var claimed := store.ClaimQueueRow(q, Waiting, OnCourse);
      store.SetStart(q, Some(run.value.tStart));
      return Ok;
    }

    method DismissOrphanRun(orphanId: int) returns (reply: Reply)
      requires Valid()
      modifies fifo, fifo.buf
      ensures Valid() && fifo.buf == old(fifo.buf)
      ensures Result(St(), reply) == DismissRun(old(St()), orphanId)
    {
      var run := fifo.Take(orphanId);
      return if run == None then Conflict else Ok;
    }

    method AddPenalty(q: int, delta: int) returns (reply: Reply)
      requires Valid()
      modifies store`rows
      ensures Valid() && fifo.buf == old(fifo.buf)
      ensures Result(St(), reply) == SetPt(old(St()), q, delta)
    {
      if q !in store.rows { return NotFound; }
      if store.rows[q].status != OnCourse { return Conflict; }
      var pt := store.SetPT(q, delta);
      return if pt == None then Conflict else Ok;
    }

    method ToggleMisCourse(q: int) returns (reply: Reply)
      requires Valid()
      modifies store`rows
      ensures Valid() && fifo.buf == old(fifo.buf)
      ensures Result(St(), reply) == ToggleMc(old(St()), q)
    {
      if q !in store.rows { return NotFound; }
      if store.rows[q].status != OnCourse { return Conflict; }
      store.SetMC(q, !store.rows[q].mc);
      return Ok;
    }

    // -------------------------------------------------------------- my.go, admin_events.go

    method MyAdd(driver: int, vehicle: int) returns (reply: Reply)
      requires Valid() && ActiveKnown()
      modifies store`rows, store`nextQueue
      ensures Valid() && fifo.buf == old(fifo.buf)
      ensures Result(St(), reply) == MyQueueAdd(old(St()), driver, vehicle)
    {
      if store.active == None { return Conflict; }
      var e := store.active.value;
      if !store.events[e].selfEntry { return Forbidden; }
      var waiting := FindDriver(Waitlist(store.rows, e), driver);
      if waiting.Some? { return Conflict; }
      var running := FindDriver(ListQueue(store.rows, e, OnCourse), driver);
      if running.Some? { return Conflict; }
      var id := store.Enqueue(e, driver, vehicle);
      return if id == None then Conflict else Ok;
    }

    method MyCancel(driver: int) returns (reply: Reply)
      requires Valid()
      modifies store`rows
      ensures Valid() && fifo.buf == old(fifo.buf)
      ensures Result(St(), reply) == MyQueueCancel(old(St()), driver)
    {
      if store.active == None { return NotFound; }
      var mine := FindDriver(Waitlist(store.rows, store.active.value), driver);
      if mine == None { return NotFound; }
      store.SetQueueStatus(mine.value, Canceled);
      return Ok;
    }

    method CloseEvent(e: int) returns (reply: Reply)
      requires Valid()
      modifies store`rows, store`active
      ensures Valid() && fifo.buf == old(fifo.buf)
      ensures Result(St(), reply) == EventClose(old(St()), e)
    {
      if |ListQueue(store.rows, e, OnCourse)| > 0 { return Conflict; }
      store.CancelWaiting(e);
      var wasActive := store.CloseEvent(e);
      return if wasActive then Ok else Conflict;
    }

    method CreateEvent(ev: Event) returns (reply: Reply)
      requires Valid()
      modifies store`events, store`active, store`nextEvent
      ensures Valid() && fifo.buf == old(fifo.buf)
      ensures Result(St(), reply) == EventCreate(old(St()), ev)
    {
      var id := store.CreateEvent(ev);
      return if id == None then Conflict else Ok;
    }
  }
}
