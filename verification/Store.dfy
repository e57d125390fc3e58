/** The queue and log statements of internal/store, on a store that is updated in place. */
module Store {
  import opened Common
  import opened QueueTable
  import opened Course

  class Store {
    var events: map<int, Event>
    var active: Option<int>
    var nextEvent: int
    var rows: Table
    var nextQueue: int
    var logs: map<int, LogRow>
    var nextLog: int

    constructor ()
      ensures events == map[] && active == None && nextEvent == 1
      ensures rows == map[] && nextQueue == 1 && logs == map[] && nextLog == 1
    {
      events, active, nextEvent := map[], None, 1;
      rows, nextQueue, logs, nextLog := map[], 1, map[], 1;
    }

    /** None stands for ErrAlreadyWaiting. */
    method Enqueue(e: int, driver: int, vehicle: int) returns (id: Option<int>)
      modifies this`rows, this`nextQueue
      ensures id == None <==> AlreadyWaiting(old(rows), e, driver, vehicle)
      ensures id == None ==> rows == old(rows) && nextQueue == old(nextQueue)
      ensures id.Some? ==> id.value == old(nextQueue) && nextQueue == old(nextQueue) + 1
                           && rows == Enqueued(old(rows), old(nextQueue), e, driver, vehicle)
    {
      if AlreadyWaiting(rows, e, driver, vehicle) { return None; }
      var waiting := Waitlist(rows, e);
      var newPos := 1.0;
      if waiting != [] {
        var last := waiting[|waiting| - 1];
        assert last in waiting;
        newPos := rows[last].position + 1.0;
      }
      rows := rows[nextQueue := Row(e, driver, vehicle, newPos, Waiting, None, 0, false)];
      id := Some(nextQueue);
      nextQueue := nextQueue + 1;
    }

    /** Reorder: write one position, scan the event's list for neighbours that got too close,
        and if there are any write 1.0, 2.0, 3.0, ... over the whole list. */
    method Reorder(id: int, p: real) returns (found: bool)
      modifies this`rows
      ensures found <==> id in old(rows)
      ensures rows == if id in old(rows) then Reordered(old(rows), id, p) else old(rows)
    {
      if id !in rows { return false; }
      found := true;
      var e := rows[id].event;
      rows := rows[id := rows[id].(position := p)];
      ghost var moved := rows;
      var ids := Waitlist(rows, e);
      SortsDistinct(rows, Waiting, Selected(rows, e, Waiting), ids);

      var needsRenumber := TooClose(ids);
      if needsRenumber { Renumber(ids); }
    }

    method TooClose(ids: seq<int>) returns (found: bool)
      requires AllIn(rows, ids)
      ensures found <==> Crowded(rows, ids)
    {
      found := false;
      var i := 1;
      while i < |ids| && !found
        invariant 1 <= i
        invariant found ==> Crowded(rows, ids)
        invariant !found ==>
          forall k :: 0 < k < i && k < |ids| ==> rows[ids[k]].position - rows[ids[k - 1]].position >= MIN_GAP
      {
        found := rows[ids[i]].position - rows[ids[i - 1]].position < MIN_GAP;
        i := i + 1;
      }
    }

    method Renumber(ids: seq<int>)
      requires AllIn(rows, ids)
      requires forall i, j :: 0 <= i < j < |ids| ==> ids[i] != ids[j]
      modifies this`rows
      ensures rows == Renumbered(old(rows), ids)
    {
      ghost var before := rows;
      var i := 0;
      while i < |ids|
        invariant 0 <= i <= |ids|
        invariant rows == Renumbered(before, ids[..i])
      {
        assert ids[..i + 1][..i] == ids[..i];
        assert ids[i] !in ids[..i];
        rows := rows[ids[i] := rows[ids[i]].(position := (i + 1) as real)];
        i := i + 1;
      }
      assert ids[..i] == ids;
    }

    method SetQueueStatus(id: int, st: Status)
      modifies this`rows
      ensures rows == WithStatus(old(rows), id, st)
    {
      if id in rows { rows := rows[id := rows[id].(status := st)]; }
    }

    /** Compare-and-set: exactly the caller that still finds the expected status wins. */
    method ClaimQueueRow(id: int, from: Status, to: Status) returns (claimed: bool)
      modifies this`rows
      ensures claimed <==> id in old(rows) && old(rows)[id].status == from
      ensures rows == if claimed then WithStatus(old(rows), id, to) else old(rows)
    {
      claimed := id in rows && rows[id].status == from;
      if claimed { rows := rows[id := rows[id].(status := to)]; }
    }

    method SetStart(id: int, tStart: Option<int>)
      modifies this`rows
      ensures rows == WithStart(old(rows), id, tStart)
    {
      if id in rows { rows := rows[id := rows[id].(tStart := tStart)]; }
    }

    /** Compare-and-set: never overwrites a stamp, never stamps a row that is not on course. */
    method SetStartIfUnset(id: int, tUs: int) returns (updated: bool)
      modifies this`rows
      ensures updated <==> id in old(rows) && old(rows)[id].status == OnCourse && old(rows)[id].tStart == None
      ensures rows == if updated then WithStart(old(rows), id, Some(tUs)) else old(rows)
    {
      updated := id in rows && rows[id].status == OnCourse && rows[id].tStart == None;
      if updated { rows := rows[id := rows[id].(tStart := Some(tUs))]; }
    }

    /** None stands for ErrPTBelowZero or a missing row. */
    method SetPT(id: int, delta: int) returns (pt: Option<int>)
      modifies this`rows
      ensures pt == if id in old(rows) && old(rows)[id].pt + delta >= 0 then Some(old(rows)[id].pt + delta) else None
      ensures rows == if pt.Some? then WithPt(old(rows), id, pt.value) else old(rows)
    {
      if id !in rows || rows[id].pt + delta < 0 { return None; }
      pt := Some(rows[id].pt + delta);
      rows := rows[id := rows[id].(pt := rows[id].pt + delta)];
    }

    method SetMC(id: int, on: bool)
      modifies this`rows
      ensures rows == WithMc(old(rows), id, on)
    {
      if id in rows { rows := rows[id := rows[id].(mc := on)]; }
    }

    method CancelWaiting(e: int)
      modifies this`rows
      ensures rows == WaitingCanceled(old(rows), e)
    {
      rows := map id | id in rows ::
        if rows[id].event == e && rows[id].status == Waiting then rows[id].(status := Canceled) else rows[id];
    }

    method InsertLog(l: LogRow) returns (id: int)
      modifies this`logs, this`nextLog
      ensures id == old(nextLog) && nextLog == old(nextLog) + 1 && logs == old(logs)[id := l]
    {
      id := nextLog;
      logs := logs[id := l];
      nextLog := nextLog + 1;
    }

    method HardDeleteLog(id: int)
      modifies this`logs
      ensures logs == old(logs) - {id}
    {
      logs := logs - {id};
    }

    /** The insert fails (ErrActiveEventExists) while the partial unique index holds a row. */
    method CreateEvent(ev: Event) returns (id: Option<int>)
      modifies this`events, this`active, this`nextEvent
      ensures id == if old(active) == None then Some(old(nextEvent)) else None
      ensures id.Some? ==> events == old(events)[id.value := ev] && active == id && nextEvent == old(nextEvent) + 1
      ensures id == None ==> events == old(events) && active == old(active) && nextEvent == old(nextEvent)
    {
      if active.Some? { return None; }
      id := Some(nextEvent);
      events := events[nextEvent := ev];
      active := id;
      nextEvent := nextEvent + 1;
    }

    method CloseEvent(e: int) returns (wasActive: bool)
      modifies this`active
      ensures wasActive <==> old(active) == Some(e)
      ensures active == if wasActive then None else old(active)
    {
      wasActive := active == Some(e);
      if wasActive { active := None; }
    }
  }
}
