/** What every run of the course protocol keeps. */
module CourseInv {
  import opened Common
  import opened QueueTable
  import opened OrphanFifo
  import opened Course
  import QueueOrder

  // ---------------------------------------------------------------- the invariant

  ghost predicate RowOk(s: State, q: int, r: Row) {
    && q < s.nextQueue
    && r.event in s.events
    && r.pt >= 0
    && (r.status == Waiting ==> r.tStart == None && r.pt == 0 && !r.mc)
    && (r.status == Done ==> r.tStart.Some?)
    && (s.active != Some(r.event) ==> Terminal(r.status))
  }

  ghost predicate RowsOk(s: State) {
    forall q :: q in s.queue ==> RowOk(s, q, s.queue[q])
  }

  ghost predicate EventsOk(s: State) {
    && (s.active.Some? ==> s.active.value in s.events)
    && (forall e :: e in s.events ==> e < s.nextEvent)
  }

  ghost predicate IsFinishLog(s: State, l: int, q: int) {
    l in s.logs && s.logs[l].origin == FromFinish(q)
  }

  /** A pending finish names a started row on course and the log its finish wrote. */
  ghost predicate PendingOk(s: State) {
    forall q :: q in s.pending ==>
      && q in s.queue && s.queue[q].status == OnCourse && s.queue[q].tStart.Some?
      && IsFinishLog(s, s.pending[q].logId, q)
  }

  /** A row has been finished for good, or its finish is still pending. */
  ghost predicate Finished(s: State, q: int) {
    q in s.queue && (s.queue[q].status == Done || q in s.pending)
  }

  /** The finish logs are in bijection with the done rows plus the pending finishes. */
  ghost predicate LogsOk(s: State) {
    && (forall l :: l in s.logs ==> l < s.nextLog)
    && (forall l, q :: IsFinishLog(s, l, q) ==> Finished(s, q))
    && (forall l, m, q :: IsFinishLog(s, l, q) && IsFinishLog(s, m, q) ==> l == m)
    && (forall q :: Finished(s, q) ==> exists l :: IsFinishLog(s, l, q))
  }

  ghost predicate OrphansOk(s: State) {
    && Increasing(s.orphans)
    && (forall r :: r in s.orphans ==> r.id <= s.orphanSeq)
  }

  ghost predicate Inv(s: State) {
    && RowsOk(s) && EventsOk(s) && PendingOk(s) && LogsOk(s) && OrphansOk(s) && Spaced(s.queue)
  }

  // ---------------------------------------------------------------- frames

  /** A step that rewrites rows but finishes none of them keeps the invariant once the new rows
      are sound, the pending ones stay on course and started, and the done ones stay done. */
  lemma NewTableKeeps(s: State, t: Table)
    requires Inv(s)
    requires t.Keys == s.queue.Keys && Spaced(t)
    requires forall q :: q in t ==> RowOk(s, q, t[q])
    requires forall q :: q in t ==> (t[q].status == Done <==> s.queue[q].status == Done)
    requires forall q :: q in s.pending ==> t[q].status == OnCourse && t[q].tStart.Some?
    ensures Inv(s.(queue := t))
  {
    var s' := s.(queue := t);
    assert forall l, q :: IsFinishLog(s', l, q) <==> IsFinishLog(s, l, q);
    assert forall q :: Finished(s', q) <==> Finished(s, q);
    assert forall q :: Finished(s', q) ==> exists l :: IsFinishLog(s', l, q) by {
      forall q | Finished(s', q) ensures exists l :: IsFinishLog(s', l, q) {
        assert Finished(s, q);
        var l :| IsFinishLog(s, l, q);
        assert IsFinishLog(s', l, q);
      }
    }
  }

  /** The special case of one row. */
  lemma OneRowKeeps(s: State, q: int, r: Row)
    requires Inv(s) && q in s.queue
    requires s.queue[q].status != Done && r.status != Done && RowOk(s, q, r)
    requires q in s.pending ==> r.status == OnCourse && r.tStart.Some?
    requires Spaced(s.queue[q := r])
    ensures Inv(s.(queue := s.queue[q := r]))
  {
    NewTableKeeps(s, s.queue[q := r]);
  }

  /** A row that is not waiting after the change cannot crowd anybody. */
  lemma SpacedUnlessWaiting(t: Table, q: int, r: Row)
    requires Spaced(t) && q in t
    requires r.status != Waiting || (t[q].status == Waiting && r.event == t[q].event && r.position == t[q].position)
    ensures Spaced(t[q := r])
  {
  }

  lemma Listed(t: Table, e: int, st: Status, q: int)
    requires q in ListQueue(t, e, st)
    ensures q in t && t[q].event == e && t[q].status == st
  {
    assert q in Selected(t, e, st);
  }

  // ---------------------------------------------------------------- course manager

  lemma FinishCarKeeps(s: State, q: int, goalUs: int, source: Source, now: int)
    requires Inv(s) && q in s.queue
    ensures Inv(FinishCar(s, q, goalUs, source, now).s)
  {
    var r := FinishCar(s, q, goalUs, source, now);
    if r.reply == Ok {
      var s' := r.s;
      var n := s.nextLog;
      assert n !in s.logs;
      assert forall l, p :: IsFinishLog(s', l, p) <==> IsFinishLog(s, l, p) || (l == n && p == q);
      assert !Finished(s, q);
      assert forall p :: Finished(s', p) <==> Finished(s, p) || p == q;
      forall p | Finished(s', p) ensures exists l :: IsFinishLog(s', l, p) {
        if p == q { assert IsFinishLog(s', n, q); }
        else { var l :| IsFinishLog(s, l, p); assert IsFinishLog(s', l, p); }
      }
    }
  }

  lemma ConfirmKeeps(s: State, q: int)
    requires Inv(s)
    ensures Inv(Confirm(s, q).s)
  {
    if q in s.pending {
      var s' := Confirm(s, q).s;
      assert forall l, p :: IsFinishLog(s', l, p) <==> IsFinishLog(s, l, p);
      assert forall p :: Finished(s', p) <==> Finished(s, p);
      forall p | Finished(s', p) ensures exists l :: IsFinishLog(s', l, p) {
        var l :| IsFinishLog(s, l, p);
        assert IsFinishLog(s', l, p);
      }
    }
  }

  lemma UndoGoalKeeps(s: State, q: int)
    requires Inv(s)
    ensures Inv(UndoGoal(s, q).s)
  {
    if q in s.pending {
      var s' := UndoGoal(s, q).s;
      var gone := s.pending[q].logId;
      assert IsFinishLog(s, gone, q);
      assert forall l, p :: IsFinishLog(s', l, p) <==> IsFinishLog(s, l, p) && p != q;
      assert forall p :: Finished(s', p) <==> Finished(s, p) && p != q;
      forall p | Finished(s', p) ensures exists l :: IsFinishLog(s', l, p) {
        var l :| IsFinishLog(s, l, p);
        assert IsFinishLog(s', l, p);
      }
    }
  }

  lemma CleanedKeeps(s: State, q: int)
    requires Inv(s) && q in s.queue && s.queue[q].status == OnCourse && q !in s.pending
    ensures Inv(s.(queue := Cleaned(s.queue, q)))
    ensures Cleaned(s.queue, q) == s.queue[q := s.queue[q].(tStart := None, pt := 0, mc := false)]
  {
    var r := s.queue[q].(tStart := None, pt := 0, mc := false);
    SpacedUnlessWaiting(s.queue, q, r);
    assert Cleaned(s.queue, q) == s.queue[q := r];
    OneRowKeeps(s, q, r);
  }

  /** Returned changes positions of waiting rows and makes `q` one of them. */
  lemma ReturnedTouches(t: Table, q: int)
    requires q in t && t[q].status != Waiting
    ensures var t' := QueueOrder.Returned(t, q);
            && t'.Keys == t.Keys
            && (forall x :: x in t && x != q ==> t'[x] == t[x].(position := t'[x].position))
            && t'[q] == t[q].(status := Waiting, position := t'[q].position)
            && (forall x :: x in t && x != q && t[x].status != Waiting ==> t'[x] == t[x])
  {
    var w1 := WithStatus(t, q, Waiting);
    QueueOrder.ReorderTouches(w1, q, FrontPosition(w1, t[q].event));
  }

  lemma UndoStartKeeps(s: State, q: int)
    requires Inv(s) && q in s.queue
    ensures Inv(UndoStart(s, q).s)
  {
    if s.queue[q].status == OnCourse && q !in s.pending {
      CleanedKeeps(s, q);
      var s1 := s.(queue := Cleaned(s.queue, q));
      ReturnedKeeps(s1, q);
      assert s1.(queue := QueueOrder.Returned(s1.queue, q)) == s.(queue := QueueOrder.Returned(s1.queue, q));
    }
  }

  lemma ReturnedKeeps(s: State, q: int)
    requires Inv(s) && q in s.queue && s.queue[q].status == OnCourse && q !in s.pending
    requires s.queue[q].tStart == None && s.queue[q].pt == 0 && !s.queue[q].mc
    ensures Inv(s.(queue := QueueOrder.Returned(s.queue, q)))
  {
    QueueOrder.ReturnPrepends(s.queue, q);
    ReturnedTouches(s.queue, q);
    BackInQueueKeeps(s, q, QueueOrder.Returned(s.queue, q));
  }

  lemma BackInQueueKeeps(s: State, q: int, t: Table)
    requires Inv(s) && q in s.queue && s.queue[q].status == OnCourse && q !in s.pending
    requires s.queue[q].tStart == None && s.queue[q].pt == 0 && !s.queue[q].mc
    requires t.Keys == s.queue.Keys && Spaced(t)
    requires forall x :: x in s.queue && x != q ==> t[x] == s.queue[x].(position := t[x].position)
    requires t[q] == s.queue[q].(status := Waiting, position := t[q].position)
    ensures Inv(s.(queue := t))
  {
    NewTableKeeps(s, t);
  }

  lemma StatusKeeps(s: State, q: int, st: Status)
    requires Inv(s) && q in s.queue && q !in s.pending
    requires st == Canceled && s.queue[q].status != Done
    ensures Inv(s.(queue := WithStatus(s.queue, q, st)))
  {
    SpacedUnlessWaiting(s.queue, q, s.queue[q].(status := st));
    OneRowKeeps(s, q, s.queue[q].(status := st));
  }

  lemma StartKeeps(s: State, q: int, tUs: int)
    requires Inv(s) && q in s.queue && s.queue[q].status == OnCourse
    ensures Inv(s.(queue := WithStart(s.queue, q, Some(tUs))))
  {
    SpacedUnlessWaiting(s.queue, q, s.queue[q].(tStart := Some(tUs)));
    OneRowKeeps(s, q, s.queue[q].(tStart := Some(tUs)));
  }

  lemma PrunedOk(s: State, refUs: int, maxSec: int)
    requires OrphansOk(s)
    ensures OrphansOk(s.(orphans := Kept(s.orphans, refUs, maxSec)))
  {
    SelectSound(s.orphans, refUs, maxSec, false);
    SelectIncreasing(s.orphans, refUs, maxSec, false);
  }

  lemma OrphanFieldsKeep(s: State, s': State)
    requires Inv(s) && OrphansOk(s')
    requires s' == s.(orphans := s'.orphans, orphanSeq := s'.orphanSeq, warnings := s'.warnings)
    ensures Inv(s')
  {
    assert forall l, q :: IsFinishLog(s', l, q) <==> IsFinishLog(s, l, q);
    assert forall q :: Finished(s', q) <==> Finished(s, q);
    forall p | Finished(s', p) ensures exists l :: IsFinishLog(s', l, p) {
      var l :| IsFinishLog(s, l, p);
      assert IsFinishLog(s', l, p);
    }
  }

  /** Writing a log row that no finish wrote, or editing a row without changing who wrote it. */
  lemma LogWriteKeeps(s: State, l: int, row: LogRow)
    requires Inv(s)
    requires if l in s.logs then row.origin == s.logs[l].origin else l == s.nextLog && !row.origin.FromFinish?
    ensures Inv(s.(logs := s.logs[l := row], nextLog := if l in s.logs then s.nextLog else s.nextLog + 1))
  {
    var s' := s.(logs := s.logs[l := row], nextLog := if l in s.logs then s.nextLog else s.nextLog + 1);
    assert forall m, q :: IsFinishLog(s', m, q) <==> IsFinishLog(s, m, q);
    assert forall q :: Finished(s', q) <==> Finished(s, q);
    forall p | Finished(s', p) ensures exists m :: IsFinishLog(s', m, p) {
      var m :| IsFinishLog(s, m, p);
      assert IsFinishLog(s', m, p);
    }
  }

  lemma SensorStartKeeps(s: State, tUs: int, now: int)
    requires Inv(s)
    ensures Inv(SensorStart(s, tUs, now).s)
  {
    if s.active.Some? {
      var e := s.active.value;
      var ids := ListQueue(s.queue, e, OnCourse);
      FirstReadyIsListed(s.queue, ids);
      match FirstReady(s.queue, ids)
      case Some(q) =>
        Listed(s.queue, e, OnCourse, q);
        StartKeeps(s, q, tUs);
      case None =>
        PrunedOk(s, tUs, s.events[e].maxSec);
        var s' := SensorStart(s, tUs, now).s;
        var kept := Kept(s.orphans, tUs, s.events[e].maxSec);
        assert forall i :: 0 <= i < |kept| ==> kept[i] in kept;
        OrphanFieldsKeep(s, s');
    }
  }

  lemma SensorGoalKeeps(s: State, tUs: int, now: int)
    requires Inv(s)
    ensures Inv(SensorGoal(s, tUs, now).s)
  {
    if s.active.Some? {
      var e := s.active.value;
      var ids := ListQueue(s.queue, e, OnCourse);
      FirstRunningIsListed(s.queue, s.pending, ids);
      match FirstRunning(s.queue, s.pending, ids)
      case Some(q) =>
        FinishCarKeeps(s, q, tUs, Sensor, now);
      case None =>
        GoalForOrphanKeeps(s, e, tUs, now);
    }
  }

  lemma TailOk(rs: seq<OrphanRun>)
    requires Increasing(rs) && rs != []
    ensures Increasing(rs[1..]) && forall r :: r in rs[1..] ==> r in rs
  {
    assert forall i :: 0 <= i < |rs[1..]| ==> rs[1..][i] == rs[i + 1];
  }

  lemma GoalForOrphanKeeps(s: State, e: int, tUs: int, now: int)
    requires Inv(s) && e in s.events
    ensures Inv(GoalForOrphan(s, e, tUs, now).s)
  {
    var max := s.events[e].maxSec;
    PrunedOk(s, tUs, max);
    var kept := Kept(s.orphans, tUs, max);
    var s' := GoalForOrphan(s, e, tUs, now).s;
    if kept != [] {
      TailOk(kept);
      var s1 := s.(orphans := kept[1..], warnings := s'.warnings);
      OrphanFieldsKeep(s, s1);
      if s'.nextLog != s.nextLog {
        assert s.nextLog !in s.logs;
        LogWriteKeeps(s1, s.nextLog, s'.logs[s.nextLog]);
        assert s' == s1.(logs := s1.logs[s.nextLog := s'.logs[s.nextLog]], nextLog := s.nextLog + 1);
      } else {
        assert s' == s1;
      }
    } else {
      OrphanFieldsKeep(s, s');
    }
  }

  // ---------------------------------------------------------------- handlers

  lemma LaunchedKeeps(s: State, q: int, tStart: Option<int>)
    requires Inv(s) && q in s.queue && s.queue[q].status == Waiting
    ensures Inv(s.(queue := Launched(s.queue, q, tStart)))
    ensures Launched(s.queue, q, tStart) == s.queue[q := s.queue[q].(status := OnCourse, tStart := tStart)]
  {
    var r := s.queue[q].(status := OnCourse, tStart := tStart);
    LaunchedIs(s.queue, q, tStart);
    SpacedUnlessWaiting(s.queue, q, r);
    OneRowKeeps(s, q, r);
  }

  lemma LaunchedIs(t: Table, q: int, tStart: Option<int>)
    requires q in t
    ensures Launched(t, q, tStart) == t[q := t[q].(status := OnCourse, tStart := tStart)]
  {
    var t1 := WithStatus(t, q, OnCourse);
    assert t1 == t[q := t[q].(status := OnCourse)];
    assert WithStart(t1, q, tStart) == t1[q := t1[q].(tStart := tStart)];
  }

  lemma HeadWaits(t: Table, e: int)
    requires Waitlist(t, e) != []
    ensures Waitlist(t, e)[0] in t && t[Waitlist(t, e)[0]].event == e && t[Waitlist(t, e)[0]].status == Waiting
  {
    var h := Waitlist(t, e)[0];
    assert h in Waitlist(t, e);
    assert h in Selected(t, e, Waiting);
  }

  lemma AdoptKeeps(s: State, id: int)
    requires Inv(s)
    ensures Inv(Adopt(s, id).s)
  {
    var r := Adopt(s, id);
    if r.reply == Ok {
      HeadWaits(s.queue, s.active.value);
      WithoutIncreasing(s.orphans, id);
      var s1 := s.(orphans := Without(s.orphans, id));
      OrphanFieldsKeep(s, s1);
      LaunchedKeeps(s1, Waitlist(s.queue, s.active.value)[0], Some(s.orphans[IndexOf(s.orphans, id)].tStart));
    }
  }

  lemma DismissRunKeeps(s: State, id: int)
    requires Inv(s)
    ensures Inv(DismissRun(s, id).s)
  {
    WithoutIncreasing(s.orphans, id);
    OrphanFieldsKeep(s, DismissRun(s, id).s);
  }

  lemma UndoStartByIdKeeps(s: State, q: int)
    requires Inv(s)
    ensures Inv(UndoStartById(s, q).s)
  {
    if q in s.queue { UndoStartKeeps(s, q); }
  }

  lemma QueueAddKeeps(s: State, driver: int, vehicle: int)
    requires Inv(s)
    ensures Inv(QueueAdd(s, driver, vehicle).s)
  {
    var r := QueueAdd(s, driver, vehicle);
    if r.reply == Ok {
      var s' := r.s;
      assert s.nextQueue !in s.queue;
      QueueOrder.EnqueueAppends(s.queue, s.nextQueue, s.active.value, driver, vehicle);
      assert forall l, q :: IsFinishLog(s', l, q) <==> IsFinishLog(s, l, q);
      assert forall q :: Finished(s', q) <==> Finished(s, q);
      forall p | Finished(s', p) ensures exists l :: IsFinishLog(s', l, p) {
        var l :| IsFinishLog(s, l, p);
        assert IsFinishLog(s', l, p);
      }
    }
  }

  lemma QueueReorderKeeps(s: State, q: int, p: real)
    requires Inv(s)
    ensures Inv(QueueReorder(s, q, p).s)
  {
    if q in s.queue && s.queue[q].status == Waiting {
      forall f | f != s.queue[q].event ensures SpacedIn(s.queue, f) {
        QueueOrder.SpacedEverywhere(s.queue, f);
      }
      QueueOrder.ReorderTouches(s.queue, q, p);
      QueueOrder.ReorderSpaces(s.queue, q, p);
      NewTableKeeps(s, Reordered(s.queue, q, p));
    }
  }

  lemma NoneOnCourse(t: Table, e: int)
    requires ListQueue(t, e, OnCourse) == []
    ensures forall q :: q in t && t[q].event == e ==> t[q].status != OnCourse
  {
    forall q | q in t && t[q].event == e ensures t[q].status != OnCourse {
      assert q !in ListQueue(t, e, OnCourse);
      assert q !in Selected(t, e, OnCourse);
    }
  }

  lemma SweepKeeps(s: State, e: int)
    requires Inv(s)
    ensures Inv(s.(queue := WaitingCanceled(s.queue, e)))
  {
    NewTableKeeps(s, WaitingCanceled(s.queue, e));
  }

  lemma EventCloseKeeps(s: State, e: int)
    requires Inv(s)
    ensures Inv(EventClose(s, e).s)
  {
    if ListQueue(s.queue, e, OnCourse) == [] {
      var t := WaitingCanceled(s.queue, e);
      NoneOnCourse(s.queue, e);
      SweepKeeps(s, e);
      var s1 := s.(queue := t);
      if s.active == Some(e) {
        EventFieldsKeep(s1, s1.(active := None));
      }
    }
  }

  lemma EventFieldsKeep(s: State, s': State)
    requires Inv(s)
    requires s' == s.(events := s'.events, active := s'.active, nextEvent := s'.nextEvent)
    requires EventsOk(s') && s.events.Keys <= s'.events.Keys
    requires forall q :: q in s.queue && s'.active != Some(s.queue[q].event) ==> Terminal(s.queue[q].status)
    ensures Inv(s')
  {
    assert forall l, q :: IsFinishLog(s', l, q) <==> IsFinishLog(s, l, q);
    assert forall q :: Finished(s', q) <==> Finished(s, q);
    forall p | Finished(s', p) ensures exists l :: IsFinishLog(s', l, p) {
      var l :| IsFinishLog(s, l, p);
      assert IsFinishLog(s', l, p);
    }
  }

  lemma EventCreateKeeps(s: State, ev: Event)
    requires Inv(s)
    ensures Inv(EventCreate(s, ev).s)
  {
    if s.active == None {
      EventFieldsKeep(s, EventCreate(s, ev).s);
    }
  }

  lemma SettingsUpdateKeeps(s: State, ev: Event)
    requires Inv(s)
    ensures Inv(SettingsUpdate(s, ev).s)
  {
    if s.active.Some? {
      EventFieldsKeep(s, SettingsUpdate(s, ev).s);
    }
  }

  lemma LogCreateKeeps(s: State, driver: int, vehicle: int, rawMs: int, pt: int, mc: bool, ts: int)
    requires Inv(s)
    ensures Inv(LogCreate(s, driver, vehicle, rawMs, pt, mc, ts).s)
  {
    assert s.nextLog !in s.logs;
    if s.active.Some? { LogWriteKeeps(s, s.nextLog, LogCreate(s, driver, vehicle, rawMs, pt, mc, ts).s.logs[s.nextLog]); }
  }

  /** An update, a delete or an assignment rewrites at most one log row. */
  lemma LogRewriteKeeps(s: State, id: int, s': State)
    requires Inv(s)
    requires s' == s.(logs := s'.logs, warnings := s'.warnings)
    requires s'.logs == s.logs || (id in s.logs && id in s'.logs && s'.logs == s.logs[id := s'.logs[id]] && s'.logs[id].origin == s.logs[id].origin)
    ensures Inv(s')
  {
    if s'.logs != s.logs { LogWriteKeeps(s, id, s'.logs[id]); }
    OrphanFieldsKeep(s.(logs := s'.logs), s');
  }

  lemma QueueCancelsKeep(s: State, step: Step)
    requires Inv(s)
    requires step.DoMyQueueCancel? || step.DoQueueCancel? || step.DoCancel? || step.DoMyQueueAdd?
    ensures Inv(Apply(s, step).s)
  {
    match step
    case DoMyQueueCancel(d) =>
      if s.active.Some? {
        var w := Waitlist(s.queue, s.active.value);
        FirstOfDriverIsListed(s.queue, w, d);
        match FirstOfDriver(s.queue, w, d)
        case None =>
        case Some(q) =>
          Listed(s.queue, s.active.value, Waiting, q);
          StatusKeeps(s, q, Canceled);
      }
    case DoQueueCancel(q) =>
      if q in s.queue && s.queue[q].status == Waiting { StatusKeeps(s, q, Canceled); }
    case DoCancel(q) =>
      if q in s.queue && s.queue[q].status == OnCourse && q !in s.pending { StatusKeeps(s, q, Canceled); }
    case DoMyQueueAdd(d, v) =>
      QueueAddKeeps(s, d, v);
  }

  lemma LaunchKeeps(s: State, c: Option<int>, now: int)
    requires Inv(s)
    ensures Inv(Launch(s, c, now).s)
  {
    if Launch(s, c, now).reply == Ok {
      var e := s.active.value;
      HeadWaits(s.queue, e);
      LaunchedKeeps(s, Waitlist(s.queue, e)[0], if s.events[e].sensorMode then None else Some(CorrectedMs(c, now) * 1000));
    }
  }

  lemma SelfLaunchKeeps(s: State, d: int)
    requires Inv(s)
    ensures Inv(SelfLaunch(s, d).s)
  {
    if SelfLaunch(s, d).reply == Ok {
      HeadWaits(s.queue, s.active.value);
      LaunchedKeeps(s, Waitlist(s.queue, s.active.value)[0], None);
    }
  }

  lemma SelfLaunchUndoKeeps(s: State, d: int)
    requires Inv(s)
    ensures Inv(SelfLaunchUndo(s, d).s)
  {
    if s.active.Some? {
      var ids := ListQueue(s.queue, s.active.value, OnCourse);
      FirstOfDriverIsListed(s.queue, ids, d);
      if FirstOfDriver(s.queue, ids, d).Some? { UndoStartKeeps(s, FirstOfDriver(s.queue, ids, d).value); }
    }
  }

  lemma ManualStartKeeps(s: State, c: Option<int>, now: int)
    requires Inv(s)
    ensures Inv(ManualStart(s, c, now).s)
  {
    if s.active.Some? {
      var ids := ListQueue(s.queue, s.active.value, OnCourse);
      FirstReadyIsListed(s.queue, ids);
      if FirstReady(s.queue, ids).Some? {
        Listed(s.queue, s.active.value, OnCourse, FirstReady(s.queue, ids).value);
        StartKeeps(s, FirstReady(s.queue, ids).value, CorrectedMs(c, now) * 1000);
      }
    }
  }

  lemma FinishOldestKeeps(s: State, c: Option<int>, now: int)
    requires Inv(s)
    ensures Inv(FinishOldest(s, c, now).s)
  {
    if s.active.Some? {
      var ids := ListQueue(s.queue, s.active.value, OnCourse);
      FirstRunningIsListed(s.queue, s.pending, ids);
      if FirstRunning(s.queue, s.pending, ids).Some? {
        FinishCarKeeps(s, FirstRunning(s.queue, s.pending, ids).value, CorrectedMs(c, now) * 1000, Manual, now);
      }
    }
  }

  lemma PenaltiesKeep(s: State, step: Step)
    requires Inv(s)
    requires step.DoSetPt? || step.DoToggleMc?
    ensures Inv(Apply(s, step).s)
  {
    var q := step.q;
    if q in s.queue && s.queue[q].status == OnCourse {
      var s' := Apply(s, step).s;
      SpacedUnlessWaiting(s.queue, q, s'.queue[q]);
      OneRowKeeps(s, q, s'.queue[q]);
    }
  }

  /** The steps of the queue, the events and the logs. */
  lemma OfficeStepKeeps(s: State, step: Step)
    requires Inv(s)
    requires step.DoQueueAdd? || step.DoMyQueueAdd? || step.DoMyQueueCancel? || step.DoQueueCancel? || step.DoQueueReorder?
          || step.DoCancel? || step.DoEventCreate? || step.DoEventClose? || step.DoSettingsUpdate?
    ensures Inv(Apply(s, step).s)
  {
    match step
    case DoQueueAdd(d, v) => QueueAddKeeps(s, d, v);
    case DoMyQueueAdd(d, v) => QueueCancelsKeep(s, step);
    case DoMyQueueCancel(d) => QueueCancelsKeep(s, step);
    case DoQueueCancel(q) => QueueCancelsKeep(s, step);
    case DoCancel(q) => QueueCancelsKeep(s, step);
    case DoQueueReorder(q, p) => QueueReorderKeeps(s, q, p);
    case DoEventCreate(ev) => EventCreateKeeps(s, ev);
    case DoEventClose(e) => EventCloseKeeps(s, e);
    case DoSettingsUpdate(ev) => SettingsUpdateKeeps(s, ev);
  }

  lemma LogStepKeeps(s: State, step: Step)
    requires Inv(s)
    requires step.DoLogCreate? || step.DoLogUpdate? || step.DoLogDelete? || step.DoLogAssign?
    ensures Inv(Apply(s, step).s)
  {
    match step
    case DoLogCreate(d, v, raw, pt, mc, ts) => LogCreateKeeps(s, d, v, raw, pt, mc, ts);
    case DoLogUpdate(id, d, v, raw, pt, mc) => LogRewriteKeeps(s, id, LogUpdate(s, id, d, v, raw, pt, mc).s);
    case DoLogDelete(id) => LogRewriteKeeps(s, id, LogDelete(s, id).s);
    case DoLogAssign(id, d, v) => LogRewriteKeeps(s, id, LogAssign(s, id, d, v).s);
  }

  lemma LaunchStepKeeps(s: State, step: Step)
    requires Inv(s)
    requires step.DoLaunch? || step.DoSelfLaunch? || step.DoSelfLaunchUndo? || step.DoAdopt?
    ensures Inv(Apply(s, step).s)
  {
    match step
    case DoLaunch(c, now) => LaunchKeeps(s, c, now);
    case DoSelfLaunch(d) => SelfLaunchKeeps(s, d);
    case DoSelfLaunchUndo(d) => SelfLaunchUndoKeeps(s, d);
    case DoAdopt(id) => AdoptKeeps(s, id);
  }

  lemma StartStepKeeps(s: State, step: Step)
    requires Inv(s)
    requires step.DoManualStart? || step.DoUndoStart? || step.DoSensorStart? || step.DoDismissRun?
    ensures Inv(Apply(s, step).s)
  {
    match step
    case DoManualStart(c, now) => ManualStartKeeps(s, c, now);
    case DoUndoStart(q) => UndoStartByIdKeeps(s, q);
    case DoSensorStart(t, now) => SensorStartKeeps(s, t, now);
    case DoDismissRun(id) => DismissRunKeeps(s, id);
  }

  lemma FinishStepKeeps(s: State, step: Step)
    requires Inv(s)
    requires step.DoFinishOldest? || step.DoFinishById? || step.DoUndoGoal? || step.DoConfirm? || step.DoSensorGoal?
          || step.DoSetPt? || step.DoToggleMc?
    ensures Inv(Apply(s, step).s)
  {
    match step
    case DoFinishOldest(c, now) => FinishOldestKeeps(s, c, now);
    case DoFinishById(q, c, now) => if q in s.queue { FinishCarKeeps(s, q, CorrectedMs(c, now) * 1000, Manual, now); }
    case DoUndoGoal(q) => UndoGoalKeeps(s, q);
    case DoConfirm(q) => ConfirmKeeps(s, q);
    case DoSensorGoal(t, now) => SensorGoalKeeps(s, t, now);
    case DoSetPt(q, delta) => PenaltiesKeep(s, step);
    case DoToggleMc(q) => PenaltiesKeep(s, step);
  }

  /** Every step keeps the invariant. */
  lemma StepKeeps(s: State, step: Step)
    requires Inv(s)
    ensures Inv(Apply(s, step).s)
  {
    if step.DoLogCreate? || step.DoLogUpdate? || step.DoLogDelete? || step.DoLogAssign? {
      LogStepKeeps(s, step);
    } else if step.DoLaunch? || step.DoSelfLaunch? || step.DoSelfLaunchUndo? || step.DoAdopt? {
      LaunchStepKeeps(s, step);
    } else if step.DoManualStart? || step.DoUndoStart? || step.DoSensorStart? || step.DoDismissRun? {
      StartStepKeeps(s, step);
    } else if step.DoFinishOldest? || step.DoFinishById? || step.DoUndoGoal? || step.DoConfirm? || step.DoSensorGoal?
          || step.DoSetPt? || step.DoToggleMc? {
      FinishStepKeeps(s, step);
    } else {
      OfficeStepKeeps(s, step);
    }
  }
}
