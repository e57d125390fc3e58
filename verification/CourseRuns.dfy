/** The main results about the course protocol, over single steps and over whole runs. */
module CourseRuns {
  import opened Common
  import opened QueueTable
  import opened OrphanFifo
  import opened Course
  import opened CourseInv
  import QueueOrder

  // ---------------------------------------------------------------- whole runs

  ghost function Run(s: State, steps: seq<Step>): (s': State)
    requires Inv(s)
    ensures Inv(s')
    decreases |steps|
  {
    if steps == [] then s
    else
      StepKeeps(s, steps[0]);
      Run(Apply(s, steps[0]).s, steps[1..])
  }

  lemma EmptyOk()
    ensures Inv(Empty)
  {
  }

  /** Whatever handlers, triggers and timers run in whatever order, starting from an empty
      database: pending finishes are sound, finish logs are in bijection with finished rows,
      waiting rows are clean, done rows were started, and a closed event is settled. */
  lemma EveryRunIsSound(steps: seq<Step>)
    ensures Inv(Empty)
    ensures var s := Run(Empty, steps);
            && (forall q :: q in s.pending ==>
                  q in s.queue && s.queue[q].status == OnCourse && s.queue[q].tStart.Some? &&
                  s.pending[q].logId in s.logs && s.logs[s.pending[q].logId].origin == FromFinish(q))
            && (forall l, q :: IsFinishLog(s, l, q) ==> q in s.queue && (s.queue[q].status == Done || q in s.pending))
            && (forall q :: q in s.queue && (s.queue[q].status == Done || q in s.pending) ==>
                  exists l :: IsFinishLog(s, l, q) && forall m :: IsFinishLog(s, m, q) ==> m == l)
            && (forall q :: q in s.queue && s.queue[q].status == Waiting ==>
                  s.queue[q].tStart == None && s.queue[q].pt == 0 && !s.queue[q].mc)
            && (forall q :: q in s.queue && s.queue[q].status == Done ==> s.queue[q].tStart.Some?)
            && (forall q :: q in s.queue && s.active != Some(s.queue[q].event) ==>
                  Terminal(s.queue[q].status) && q !in s.pending)
            && Spaced(s.queue)
            && Increasing(s.orphans)
  {
    EmptyOk();
    var s := Run(Empty, steps);
    forall q | q in s.queue && (s.queue[q].status == Done || q in s.pending)
      ensures exists l :: IsFinishLog(s, l, q) && forall m :: IsFinishLog(s, m, q) ==> m == l
    {
      assert Finished(s, q);
      var l :| IsFinishLog(s, l, q);
      assert forall m :: IsFinishLog(s, m, q) ==> m == l;
    }
    forall l, q | IsFinishLog(s, l, q) ensures q in s.queue && (s.queue[q].status == Done || q in s.pending) {
      assert Finished(s, q);
    }
  }

  // ---------------------------------------------------------------- rows are never lost, ends are final

  /** Rows stay in the table, keep their event, driver and vehicle, and a row that is done or
      canceled is never written again. */
  ghost predicate RowsEvolve(t: Table, t': Table) {
    forall q :: q in t ==>
      && q in t'
      && t'[q].event == t[q].event && t'[q].driver == t[q].driver && t'[q].vehicle == t[q].vehicle
      && (Terminal(t[q].status) ==> t'[q] == t[q])
  }

  lemma UndoStartEvolves(s: State, q: int)
    requires q in s.queue
    ensures RowsEvolve(s.queue, UndoStart(s, q).s.queue)
  {
    if s.queue[q].status == OnCourse && q !in s.pending {
      var t := Cleaned(s.queue, q);
      assert t == s.queue[q := s.queue[q].(tStart := None, pt := 0, mc := false)];
      ReturnedTouches(t, q);
      MovedEvolves(s.queue, q, t, QueueOrder.Returned(t, q));
    }
  }

  lemma MovedEvolves(t: Table, q: int, t1: Table, t2: Table)
    requires q in t && t[q].status == OnCourse
    requires t1 == t[q := t[q].(tStart := None, pt := 0, mc := false)] && t2.Keys == t.Keys
    requires forall x :: x in t && x != q ==> t2[x] == t1[x].(position := t2[x].position)
    requires forall x :: x in t && x != q && t1[x].status != Waiting ==> t2[x] == t1[x]
    requires t2[q] == t1[q].(status := Waiting, position := t2[q].position)
    ensures RowsEvolve(t, t1) && RowsEvolve(t, t2)
  {
  }

  lemma OneRowEvolves(t: Table, q: int, r: Row)
    requires q in t && !Terminal(t[q].status)
    requires r.event == t[q].event && r.driver == t[q].driver && r.vehicle == t[q].vehicle
    ensures RowsEvolve(t, t[q := r])
  {
  }

  /** A start trigger or a manual start stamps the oldest unstarted row on course, or none. */
  lemma StampIsOneRow(s: State, t: int, now: int, c: Option<int>)
    requires Inv(s)
    ensures s.active.Some? && FirstReady(s.queue, ListQueue(s.queue, s.active.value, OnCourse)).Some? ==>
              var q := FirstReady(s.queue, ListQueue(s.queue, s.active.value, OnCourse)).value;
              && q in s.queue && s.queue[q].status == OnCourse
              && SensorStart(s, t, now).s.queue == s.queue[q := s.queue[q].(tStart := Some(t))]
              && ManualStart(s, c, now).s.queue == s.queue[q := s.queue[q].(tStart := Some(CorrectedMs(c, now) * 1000))]
    ensures s.active == None || FirstReady(s.queue, ListQueue(s.queue, s.active.value, OnCourse)) == None ==>
              SensorStart(s, t, now).s.queue == s.queue && ManualStart(s, c, now).s.queue == s.queue
  {
    if s.active.Some? {
      var ids := ListQueue(s.queue, s.active.value, OnCourse);
      FirstReadyIsListed(s.queue, ids);
      if FirstReady(s.queue, ids).Some? { Listed(s.queue, s.active.value, OnCourse, FirstReady(s.queue, ids).value); }
    }
  }

  lemma StampsEvolve(s: State, t: int, now: int, c: Option<int>)
    requires Inv(s)
    ensures RowsEvolve(s.queue, SensorStart(s, t, now).s.queue) && RowsEvolve(s.queue, ManualStart(s, c, now).s.queue)
  {
    StampIsOneRow(s, t, now, c);
    if s.active.Some? && FirstReady(s.queue, ListQueue(s.queue, s.active.value, OnCourse)).Some? {
      var q := FirstReady(s.queue, ListQueue(s.queue, s.active.value, OnCourse)).value;
      OneRowEvolves(s.queue, q, s.queue[q].(tStart := Some(t)));
      OneRowEvolves(s.queue, q, s.queue[q].(tStart := Some(CorrectedMs(c, now) * 1000)));
    }
  }

  lemma LaunchedEvolves(t: Table, e: int, start: Option<int>)
    requires Waitlist(t, e) != []
    ensures RowsEvolve(t, Launched(t, Waitlist(t, e)[0], start))
  {
    HeadWaits(t, e);
    var q := Waitlist(t, e)[0];
    LaunchedIs(t, q, start);
    OneRowEvolves(t, q, t[q].(status := OnCourse, tStart := start));
  }

  lemma LaunchEvolves(s: State, c: Option<int>, now: int)
    requires Inv(s)
    ensures RowsEvolve(s.queue, Launch(s, c, now).s.queue)
  {
    if Launch(s, c, now).reply == Ok {
      var e := s.active.value;
      LaunchedEvolves(s.queue, e, if s.events[e].sensorMode then None else Some(CorrectedMs(c, now) * 1000));
    }
  }

  lemma SelfLaunchEvolves(s: State, driver: int)
    requires Inv(s)
    ensures RowsEvolve(s.queue, SelfLaunch(s, driver).s.queue)
  {
    if SelfLaunch(s, driver).reply == Ok { LaunchedEvolves(s.queue, s.active.value, None); }
  }

  lemma AdoptEvolves(s: State, id: int)
    ensures RowsEvolve(s.queue, Adopt(s, id).s.queue)
  {
    if Adopt(s, id).reply == Ok { LaunchedEvolves(s.queue, s.active.value, Some(s.orphans[IndexOf(s.orphans, id)].tStart)); }
  }

  lemma SelfLaunchUndoEvolves(s: State, driver: int)
    requires Inv(s)
    ensures RowsEvolve(s.queue, SelfLaunchUndo(s, driver).s.queue)
  {
    if s.active.Some? {
      var ids := ListQueue(s.queue, s.active.value, OnCourse);
      FirstOfDriverIsListed(s.queue, ids, driver);
      if FirstOfDriver(s.queue, ids, driver).Some? { UndoStartEvolves(s, FirstOfDriver(s.queue, ids, driver).value); }
    }
  }

  lemma QueueAddEvolves(s: State, driver: int, vehicle: int)
    requires Inv(s)
    ensures RowsEvolve(s.queue, QueueAdd(s, driver, vehicle).s.queue)
  {
    assert s.nextQueue !in s.queue;
  }

  lemma MyQueueCancelEvolves(s: State, driver: int)
    requires Inv(s)
    ensures RowsEvolve(s.queue, MyQueueCancel(s, driver).s.queue)
  {
    if s.active.Some? {
      var w := Waitlist(s.queue, s.active.value);
      FirstOfDriverIsListed(s.queue, w, driver);
      if FirstOfDriver(s.queue, w, driver).Some? {
        var q := FirstOfDriver(s.queue, w, driver).value;
        Listed(s.queue, s.active.value, Waiting, q);
        OneRowEvolves(s.queue, q, s.queue[q].(status := Canceled));
      }
    }
  }

  lemma AddsEvolve(s: State, step: Step)
    requires Inv(s)
    requires step.DoQueueAdd? || step.DoMyQueueAdd?
    ensures RowsEvolve(s.queue, Apply(s, step).s.queue)
  {
    QueueAddEvolves(s, step.driver, step.vehicle);
  }

  lemma ReorderEvolves(s: State, q: int, p: real)
    ensures RowsEvolve(s.queue, QueueReorder(s, q, p).s.queue)
  {
    if q in s.queue { QueueOrder.ReorderTouches(s.queue, q, p); }
  }

  lemma CloseEvolves(s: State, e: int)
    ensures RowsEvolve(s.queue, EventClose(s, e).s.queue)
  {
  }

  lemma HeadStepsEvolve(s: State, step: Step)
    requires Inv(s) && (step.DoSelfLaunch? || step.DoAdopt? || step.DoSelfLaunchUndo?)
    ensures RowsEvolve(s.queue, Apply(s, step).s.queue)
  {
    if step.DoSelfLaunch? { SelfLaunchEvolves(s, step.driver); }
    else if step.DoAdopt? { AdoptEvolves(s, step.orphanId); }
    else { SelfLaunchUndoEvolves(s, step.driver); }
  }

  lemma StepEvolves(s: State, step: Step)
    requires Inv(s)
    ensures RowsEvolve(s.queue, Apply(s, step).s.queue)
  {
    if step.DoSensorStart? {
      StampsEvolve(s, step.tUs, step.now, None);
    } else if step.DoManualStart? {
      StampsEvolve(s, 0, step.now, step.clientMs);
    } else if step.DoLaunch? {
      LaunchEvolves(s, step.clientMs, step.now);
    } else if step.DoSelfLaunch? || step.DoAdopt? || step.DoSelfLaunchUndo? {
      HeadStepsEvolve(s, step);
    } else if step.DoQueueAdd? || step.DoMyQueueAdd? {
      AddsEvolve(s, step);
    } else if step.DoMyQueueCancel? {
      MyQueueCancelEvolves(s, step.driver);
    } else if step.DoQueueReorder? {
      ReorderEvolves(s, step.q, step.p);
    } else if step.DoEventClose? {
      CloseEvolves(s, step.e);
    } else if step.DoUndoStart? {
      if step.q in s.queue { UndoStartEvolves(s, step.q); }
    } else if step.DoQueueCancel? || step.DoCancel? {
      CancelsEvolve(s, step.q);
    } else if step.DoConfirm? || step.DoSetPt? || step.DoToggleMc? {
      CourseRowsEvolve(s, step.q, if step.DoSetPt? then step.delta else 0);
    } else if step.DoFinishOldest? || step.DoFinishById? || step.DoUndoGoal? || step.DoSensorGoal? {
      FinishesTouchNoRow(s, step);
    } else {
      OthersTouchNoRow(s, step);
    }
  }

  /** Finishing writes logs and pending finishes, never a row. */
  lemma FinishesTouchNoRow(s: State, step: Step)
    requires Inv(s)
    requires step.DoFinishOldest? || step.DoFinishById? || step.DoUndoGoal? || step.DoSensorGoal?
    ensures Apply(s, step).s.queue == s.queue
  {
  }

  lemma OthersTouchNoRow(s: State, step: Step)
    requires Inv(s)
    requires step.DoDismissRun? || step.DoEventCreate? || step.DoSettingsUpdate?
          || step.DoLogCreate? || step.DoLogUpdate? || step.DoLogDelete? || step.DoLogAssign?
    ensures Apply(s, step).s.queue == s.queue
  {
  }

  /** A step that names a row writes that row or nothing. */
  ghost predicate WritesRow(t: Table, q: int, t': Table) {
    || t' == t
    || (q in t && q in t' && t' == t[q := t'[q]] && !Terminal(t[q].status)
        && t'[q].event == t[q].event && t'[q].driver == t[q].driver && t'[q].vehicle == t[q].vehicle
        && t'[q].position == t[q].position)
  }

  lemma CancelsWriteRow(s: State, q: int)
    ensures WritesRow(s.queue, q, QueueCancel(s, q).s.queue)
    ensures WritesRow(s.queue, q, CancelById(s, q).s.queue)
  {
  }

  lemma CourseRowWrites(s: State, q: int, delta: int)
    requires Inv(s)
    ensures WritesRow(s.queue, q, Confirm(s, q).s.queue)
    ensures WritesRow(s.queue, q, SetPt(s, q, delta).s.queue)
    ensures WritesRow(s.queue, q, ToggleMc(s, q).s.queue)
  {
  }

  lemma CancelsEvolve(s: State, q: int)
    ensures RowsEvolve(s.queue, QueueCancel(s, q).s.queue) && RowsEvolve(s.queue, CancelById(s, q).s.queue)
  {
    CancelsWriteRow(s, q);
    WrittenRowEvolves(s.queue, q, QueueCancel(s, q).s.queue);
    WrittenRowEvolves(s.queue, q, CancelById(s, q).s.queue);
  }

  lemma CourseRowsEvolve(s: State, q: int, delta: int)
    requires Inv(s)
    ensures RowsEvolve(s.queue, Confirm(s, q).s.queue)
    ensures RowsEvolve(s.queue, SetPt(s, q, delta).s.queue)
    ensures RowsEvolve(s.queue, ToggleMc(s, q).s.queue)
  {
    CourseRowWrites(s, q, delta);
    WrittenRowEvolves(s.queue, q, Confirm(s, q).s.queue);
    WrittenRowEvolves(s.queue, q, SetPt(s, q, delta).s.queue);
    WrittenRowEvolves(s.queue, q, ToggleMc(s, q).s.queue);
  }

  lemma WrittenRowEvolves(t: Table, q: int, t': Table)
    requires WritesRow(t, q, t')
    ensures RowsEvolve(t, t')
  {
    if t' != t { OneRowEvolves(t, q, t'[q]); }
  }

  lemma {:induction false} RunEvolves(s: State, steps: seq<Step>)
    requires Inv(s)
    ensures RowsEvolve(s.queue, Run(s, steps).queue)
    decreases |steps|
  {
    if steps != [] {
      StepKeeps(s, steps[0]);
      StepEvolves(s, steps[0]);
      RunEvolves(Apply(s, steps[0]).s, steps[1..]);
    }
  }

  // ---------------------------------------------------------------- refused requests

  /** A refused request changes nothing. (EventClose cancels the waiting rows before it looks
      whether the event is active; an inactive event has none left to cancel.) */
  lemma RefusedChangesNothing(s: State, step: Step)
    requires Inv(s)
    ensures Apply(s, step).reply in {Conflict, NotFound, Forbidden} ==> Apply(s, step).s == s
  {
    if step.DoEventClose? {
      RefusedCloseChangesNothing(s, step.e);
    } else if step.DoLaunch? || step.DoSelfLaunch? || step.DoSelfLaunchUndo? || step.DoManualStart? || step.DoUndoStart?
          || step.DoSensorStart? || step.DoAdopt? || step.DoDismissRun? || step.DoSensorGoal? {
      RefusedStart(s, step);
    } else {
      RefusedOther(s, step);
    }
  }

  lemma RefusedStart(s: State, step: Step)
    requires Inv(s)
    requires step.DoLaunch? || step.DoSelfLaunch? || step.DoSelfLaunchUndo? || step.DoManualStart? || step.DoUndoStart?
          || step.DoSensorStart? || step.DoAdopt? || step.DoDismissRun? || step.DoSensorGoal?
    ensures Apply(s, step).reply in {Conflict, NotFound, Forbidden} ==> Apply(s, step).s == s
  {
  }

  lemma RefusedOther(s: State, step: Step)
    requires Inv(s)
    requires !(step.DoLaunch? || step.DoSelfLaunch? || step.DoSelfLaunchUndo? || step.DoManualStart? || step.DoUndoStart?
          || step.DoSensorStart? || step.DoAdopt? || step.DoDismissRun? || step.DoSensorGoal? || step.DoEventClose?)
    ensures Apply(s, step).reply in {Conflict, NotFound, Forbidden} ==> Apply(s, step).s == s
  {
  }

  lemma RefusedCloseChangesNothing(s: State, e: int)
    requires Inv(s)
    ensures EventClose(s, e).reply != Ok ==> EventClose(s, e).s == s
  {
    if s.active != Some(e) {
      assert WaitingCanceled(s.queue, e) == s.queue by {
        forall q | q in s.queue ensures WaitingCanceled(s.queue, e)[q] == s.queue[q] {
          assert RowOk(s, q, s.queue[q]);
        }
      }
    }
  }

  /** A timer that fires with no pending finish, such as a second confirm or one overtaken by
      undo-goal, changes nothing. */
  lemma ConfirmTwice(s: State, q: int)
    ensures q !in s.pending ==> Confirm(s, q).s == s
    ensures Confirm(Confirm(s, q).s, q).s == Confirm(s, q).s
  {
  }

  // ---------------------------------------------------------------- the waiting lists

  /** What a step does to the waiting list of event `f`, said on the plain sequence of ids. */
  ghost function NextList(s: State, step: Step, f: int): (ids: seq<int>)
    requires Inv(s)
  {
    var w := Waitlist(s.queue, f);
    if Apply(s, step).reply != Ok then w
    else match step
      case DoQueueAdd(_, _) => if s.active == Some(f) then w + [s.nextQueue] else w
      case DoMyQueueAdd(_, _) => if s.active == Some(f) then w + [s.nextQueue] else w
      case DoLaunch(_, _) => if s.active == Some(f) && w != [] then w[1..] else w
      case DoSelfLaunch(_) => if s.active == Some(f) && w != [] then w[1..] else w
      case DoAdopt(_) => if s.active == Some(f) && w != [] then w[1..] else w
      case DoQueueCancel(q) => QueueOrder.Removed(w, q)
      case DoMyQueueCancel(d) =>
        if s.active == Some(f) && FirstOfDriver(s.queue, w, d).Some?
        then QueueOrder.Removed(w, FirstOfDriver(s.queue, w, d).value) else w
      case DoQueueReorder(q, p) =>
        if q in s.queue && s.queue[q].event == f && AllIn(s.queue, QueueOrder.Removed(w, q)) then
          var rest := QueueOrder.Removed(w, q);
          QueueOrder.Inserted(rest, QueueOrder.Place(s.queue, rest, p, q), q)
        else w
      case DoUndoStart(q) => if GoesBack(s, q) && s.queue[q].event == f then [q] + w else w
      case DoSelfLaunchUndo(d) =>
        if s.active == Some(f) && FirstOfDriver(s.queue, ListQueue(s.queue, f, OnCourse), d).Some?
        then [FirstOfDriver(s.queue, ListQueue(s.queue, f, OnCourse), d).value] + w else w
      case DoEventClose(e) => if e == f then [] else w
      case _ => w
  }

  /** An undone start goes back to the queue unless a sensor-mode car had already started. */
  predicate GoesBack(s: State, q: int) {
    q in s.queue && !(s.queue[q].tStart != None && s.queue[q].event in s.events && s.events[s.queue[q].event].sensorMode)
  }

  lemma SameRowsSameList(t: Table, t': Table, f: int)
    requires forall q :: (q in t && t[q].event == f && t[q].status == Waiting) <==> (q in t' && t'[q].event == f && t'[q].status == Waiting)
    requires forall q :: q in t && q in t' && t[q].status == Waiting ==> t'[q].position == t[q].position
    ensures Waitlist(t', f) == Waitlist(t, f)
  {
    forall q ensures q in Selected(t, f, Waiting) <==> q in Selected(t', f, Waiting) {
      assert (q in t && t[q].event == f && t[q].status == Waiting) <==> (q in t' && t'[q].event == f && t'[q].status == Waiting);
    }
    SameListing(t, t', f, Waiting);
  }

  lemma OneRowSameList(t: Table, q: int, r: Row, f: int)
    requires q in t && t[q].event == r.event && t[q].position == r.position
    requires t[q].status == Waiting <==> r.status == Waiting
    ensures Waitlist(t[q := r], f) == Waitlist(t, f)
  {
    SameRowsSameList(t, t[q := r], f);
  }

  lemma LaunchTakesHead(t: Table, e: int, tStart: Option<int>, f: int)
    requires Waitlist(t, e) != []
    ensures Waitlist(Launched(t, Waitlist(t, e)[0], tStart), f) == (if f == e then Waitlist(t, e)[1..] else Waitlist(t, f))
  {
    HeadWaits(t, e);
    var q := Waitlist(t, e)[0];
    QueueOrder.LeavingRemoves(t, q, OnCourse, f);
    QueueOrder.RemovedHead(t, e);
    var t1 := WithStatus(t, q, OnCourse);
    SameRowsSameList(t1, WithStart(t1, q, tStart), f);
    if f != e {
      assert q !in Selected(t, f, Waiting);
      QueueOrder.RemovedMembers(Waitlist(t, f), q);
    }
  }

  lemma UndoStartList(s: State, q: int, f: int)
    requires Inv(s) && q in s.queue && UndoStart(s, q).reply == Ok
    ensures Waitlist(UndoStart(s, q).s.queue, f) ==
            (if GoesBack(s, q) && s.queue[q].event == f then [q] + Waitlist(s.queue, f) else Waitlist(s.queue, f))
  {
    var t := Cleaned(s.queue, q);
    SameRowsSameList(s.queue, t, f);
    if GoesBack(s, q) {
      QueueOrder.ReturnPrepends(t, q);
    }
  }

  lemma CancelList(s: State, q: int, f: int)
    requires q in s.queue
    ensures Waitlist(WithStatus(s.queue, q, Canceled), f) == QueueOrder.Removed(Waitlist(s.queue, f), q)
    ensures s.queue[q].status != Waiting || s.queue[q].event != f ==> QueueOrder.Removed(Waitlist(s.queue, f), q) == Waitlist(s.queue, f)
  {
    QueueOrder.LeavingRemoves(s.queue, q, Canceled, f);
    QueueOrder.RemovedMembers(Waitlist(s.queue, f), q);
  }

  lemma CloseList(s: State, e: int, f: int)
    requires Inv(s) && EventClose(s, e).reply == Ok
    ensures Waitlist(EventClose(s, e).s.queue, f) == (if e == f then [] else Waitlist(s.queue, f))
  {
    var t := WaitingCanceled(s.queue, e);
    if e == f {
      assert Selected(t, e, Waiting) == {};
      ListingIs(t, e, Waiting, []);
    } else {
      SameRowsSameList(s.queue, t, f);
    }
  }

  lemma QueueStepsRefine(s: State, step: Step, f: int)
    requires Inv(s) && Apply(s, step).reply == Ok
    requires step.DoQueueAdd? || step.DoMyQueueAdd? || step.DoMyQueueCancel? || step.DoQueueCancel? || step.DoQueueReorder? || step.DoEventClose? || step.DoCancel?
    ensures Waitlist(Apply(s, step).s.queue, f) == NextList(s, step, f)
  {
    if step.DoQueueAdd? || step.DoMyQueueAdd? {
      assert s.nextQueue !in s.queue;
      QueueOrder.EnqueueAppends(s.queue, s.nextQueue, s.active.value, step.driver, step.vehicle);
    } else if step.DoMyQueueCancel? {
      var w := Waitlist(s.queue, s.active.value);
      FirstOfDriverIsListed(s.queue, w, step.driver);
      var q := FirstOfDriver(s.queue, w, step.driver).value;
      Listed(s.queue, s.active.value, Waiting, q);
      CancelList(s, q, f);
    } else if step.DoQueueCancel? {
      CancelList(s, step.q, f);
    } else if step.DoCancel? {
      CancelList(s, step.q, f);
    } else if step.DoQueueReorder? {
      QueueOrder.ReorderMoves(s.queue, step.q, step.p);
    } else {
      CloseList(s, step.e, f);
    }
  }

  lemma CourseStepsRefine(s: State, step: Step, f: int)
    requires Inv(s) && Apply(s, step).reply == Ok
    requires step.DoLaunch? || step.DoSelfLaunch? || step.DoAdopt? || step.DoUndoStart? || step.DoSelfLaunchUndo?
    ensures Waitlist(Apply(s, step).s.queue, f) == NextList(s, step, f)
  {
    if step.DoUndoStart? {
      UndoStartList(s, step.q, f);
    } else if step.DoSelfLaunchUndo? {
      var e := s.active.value;
      var ids := ListQueue(s.queue, e, OnCourse);
      FirstOfDriverIsListed(s.queue, ids, step.driver);
      var q := FirstOfDriver(s.queue, ids, step.driver).value;
      Listed(s.queue, e, OnCourse, q);
      UndoStartList(s, q, f);
    } else {
      var e := s.active.value;
      var q := Waitlist(s.queue, e)[0];
      LaunchTakesHead(s.queue, e, Apply(s, step).s.queue[q].tStart, f);
    }
  }

  lemma StampsKeepLists(s: State, t: int, now: int, c: Option<int>, f: int)
    requires Inv(s)
    ensures Waitlist(SensorStart(s, t, now).s.queue, f) == Waitlist(s.queue, f)
    ensures Waitlist(ManualStart(s, c, now).s.queue, f) == Waitlist(s.queue, f)
  {
    StampIsOneRow(s, t, now, c);
    if s.active.Some? && FirstReady(s.queue, ListQueue(s.queue, s.active.value, OnCourse)).Some? {
      var q := FirstReady(s.queue, ListQueue(s.queue, s.active.value, OnCourse)).value;
      OneRowSameList(s.queue, q, s.queue[q].(tStart := Some(t)), f);
      OneRowSameList(s.queue, q, s.queue[q].(tStart := Some(CorrectedMs(c, now) * 1000)), f);
    }
  }

  /** The position-keyed table refines one sequence of ids per event: enqueueing appends, a
      launch or an adoption takes the head, going back to the queue prepends, a reorder moves
      one id to where its key sorts, a cancel removes one, a close clears, and nothing else
      (renumbering included) changes any list. */
  lemma StepRefinesLists(s: State, step: Step, f: int)
    requires Inv(s)
    ensures Waitlist(Apply(s, step).s.queue, f) == NextList(s, step, f)
  {
    var r := Apply(s, step);
    if r.reply in {Conflict, NotFound, Forbidden} {
      RefusedChangesNothing(s, step);
    } else if step.DoSensorStart? {
      StampsKeepLists(s, step.tUs, step.now, None, f);
    } else if step.DoManualStart? {
      StampsKeepLists(s, 0, step.now, step.clientMs, f);
    } else if step.DoQueueAdd? || step.DoMyQueueAdd? || step.DoMyQueueCancel? || step.DoQueueCancel? || step.DoQueueReorder? || step.DoEventClose? || step.DoCancel? {
      QueueStepsRefine(s, step, f);
    } else if step.DoLaunch? || step.DoSelfLaunch? || step.DoAdopt? || step.DoUndoStart? || step.DoSelfLaunchUndo? {
      CourseStepsRefine(s, step, f);
    } else if step.DoConfirm? || step.DoSetPt? || step.DoToggleMc? {
      PlainStepList(s, step, f);
    } else if step.DoFinishOldest? || step.DoFinishById? || step.DoUndoGoal? || step.DoSensorGoal? {
      FinishesTouchNoRow(s, step);
    } else {
      OthersTouchNoRow(s, step);
    }
  }

  lemma PlainStepList(s: State, step: Step, f: int)
    requires Inv(s)
    requires step.DoConfirm? || step.DoSetPt? || step.DoToggleMc?
    ensures Waitlist(Apply(s, step).s.queue, f) == Waitlist(s.queue, f)
  {
    var q, t' := step.q, Apply(s, step).s.queue;
    CourseRowWrites(s, q, if step.DoSetPt? then step.delta else 0);
    if t' != s.queue { OneRowSameList(s.queue, q, t'[q], f); }
  }

  // ---------------------------------------------------------------- what one call undoes

  /** Undo-goal takes a finish back completely: only the log id it used up stays used. */
  lemma UndoGoalUndoesFinish(s: State, q: int, goalUs: int, source: Source, now: int)
    requires Inv(s) && q in s.queue && FinishCar(s, q, goalUs, source, now).reply == Ok
    ensures UndoGoal(FinishCar(s, q, goalUs, source, now).s, q) == Result(s.(nextLog := s.nextLog + 1), Ok)
  {
    var s1 := FinishCar(s, q, goalUs, source, now).s;
    var s2 := UndoGoal(s1, q).s;
    assert s.nextLog !in s.logs;
    assert s2.logs == s.logs;
    assert s2.pending == s.pending;
  }

  /** Undo-start takes a launch of the head back (unless the car started in sensor mode
      meanwhile): every waiting list is as before, and every row is too, up to the position
      it sorts by. */
  lemma UndoStartUndoesLaunch(s: State, tStart: Option<int>, f: int)
    requires Inv(s) && s.active.Some? && Waitlist(s.queue, s.active.value) != []
    requires tStart.Some? ==> !s.events[s.active.value].sensorMode
    ensures var q := Waitlist(s.queue, s.active.value)[0];
            var s1 := s.(queue := Launched(s.queue, q, tStart));
            && q in s1.queue && UndoStart(s1, q).reply == Ok
            && var s2 := UndoStart(s1, q).s;
               && Waitlist(s2.queue, f) == Waitlist(s.queue, f)
               && s2 == s.(queue := s2.queue) && s2.queue.Keys == s.queue.Keys
               && forall x :: x in s.queue ==> s2.queue[x] == s.queue[x].(position := s2.queue[x].position)
  {
    var e := s.active.value;
    HeadWaits(s.queue, e);
    var q := Waitlist(s.queue, e)[0];
    assert RowOk(s, q, s.queue[q]);
    assert q !in s.pending;
    LaunchedKeeps(s, q, tStart);
    var s1 := s.(queue := Launched(s.queue, q, tStart));
    LaunchTakesHead(s.queue, e, tStart, f);
    UndoStartList(s1, q, f);
    assert Waitlist(s.queue, e) == [q] + Waitlist(s.queue, e)[1..];
    LaunchedAndBack(s.queue, q, tStart);
  }

  lemma LaunchedAndBack(t: Table, q: int, tStart: Option<int>)
    requires q in t && t[q].status == Waiting && t[q].tStart == None && t[q].pt == 0 && !t[q].mc
    ensures var t' := QueueOrder.Returned(Cleaned(Launched(t, q, tStart), q), q);
            t'.Keys == t.Keys && forall x :: x in t ==> t'[x] == t[x].(position := t'[x].position)
  {
    var t1 := Cleaned(Launched(t, q, tStart), q);
    assert t1 == t[q := t[q].(status := OnCourse)];
    ReturnedTouches(t1, q);
  }

  // ---------------------------------------------------------------- pairing

  lemma {:induction false} FirstReadyIsOldest(t: Table, ids: seq<int>)
    requires AllIn(t, ids)
    requires forall i, j :: 0 <= i < j < |ids| ==> ids[i] < ids[j]
    ensures match FirstReady(t, ids)
            case Some(q) => q in ids && q in t && t[q].tStart == None && forall x :: x in ids && x in t && t[x].tStart == None ==> q <= x
            case None => forall x :: x in ids && x in t ==> t[x].tStart.Some?
  {
    if ids != [] {
      FirstReadyIsOldest(t, ids[1..]);
      SplitHead(ids);
    }
  }

  lemma {:induction false} FirstRunningIsOldest(t: Table, pending: map<int, Pending>, ids: seq<int>)
    requires AllIn(t, ids)
    requires forall i, j :: 0 <= i < j < |ids| ==> ids[i] < ids[j]
    ensures match FirstRunning(t, pending, ids)
            case Some(q) => q in ids && q in t && t[q].tStart.Some? && q !in pending &&
                            forall x :: x in ids && x in t && t[x].tStart.Some? && x !in pending ==> q <= x
            case None => forall x :: x in ids && x in t ==> t[x].tStart == None || x in pending
  {
    if ids != [] {
      FirstRunningIsOldest(t, pending, ids[1..]);
      SplitHead(ids);
    }
  }

  lemma SplitHead(ids: seq<int>)
    requires ids != []
    requires forall i, j :: 0 <= i < j < |ids| ==> ids[i] < ids[j]
    ensures forall x :: x in ids <==> x == ids[0] || x in ids[1..]
    ensures forall x :: x in ids[1..] ==> ids[0] < x
  {
    assert ids == [ids[0]] + ids[1..];
    var x0 := ids[0];
    assert x0 in ids;
  }

  ghost predicate Ready(s: State, e: int, q: int) {
    q in s.queue && s.queue[q].event == e && s.queue[q].status == OnCourse && s.queue[q].tStart == None
  }

  ghost predicate Running(s: State, e: int, q: int) {
    q in s.queue && s.queue[q].event == e && s.queue[q].status == OnCourse && s.queue[q].tStart.Some? && q !in s.pending
  }

  /** A start trigger stamps the READY car of least queue id, and becomes an orphan run exactly
      when no car is READY. */
  lemma StartPairsWithOldestReady(s: State, tUs: int, now: int)
    requires Inv(s) && s.active.Some?
    ensures var e := s.active.value; var s' := SensorStart(s, tUs, now).s;
            if exists q :: Ready(s, e, q)
            then exists q :: Ready(s, e, q) && (forall x :: Ready(s, e, x) ==> q <= x)
                   && s' == s.(queue := s.queue[q := s.queue[q].(tStart := Some(tUs))])
            else s'.queue == s.queue && s'.orphanSeq == s.orphanSeq + 1
                   && OrphanRun(s.orphanSeq + 1, tUs, now) in s'.orphans
  {
    var e := s.active.value;
    var ids := ListQueue(s.queue, e, OnCourse);
    FirstReadyIsOldest(s.queue, ids);
    assert forall x :: Ready(s, e, x) ==> x in Selected(s.queue, e, OnCourse) && x in ids;
    match FirstReady(s.queue, ids) {
      case Some(q) =>
        Listed(s.queue, e, OnCourse, q);
        assert Ready(s, e, q);
      case None =>
        var s' := SensorStart(s, tUs, now).s;
        assert s'.orphans[|s'.orphans| - 1] == OrphanRun(s.orphanSeq + 1, tUs, now);
    }
  }

  /** A goal trigger goes to the RUNNING car of least queue id; only when no car is running may it
      end an orphan run. */
  lemma GoalPairsWithOldestRunning(s: State, tUs: int, now: int)
    requires Inv(s) && s.active.Some?
    ensures var e := s.active.value;
            if exists q :: Running(s, e, q)
            then exists q :: Running(s, e, q) && (forall x :: Running(s, e, x) ==> q <= x)
                   && SensorGoal(s, tUs, now) == FinishCar(s, q, tUs, Sensor, now)
            else SensorGoal(s, tUs, now) == GoalForOrphan(s, e, tUs, now)
  {
    var e := s.active.value;
    var ids := ListQueue(s.queue, e, OnCourse);
    FirstRunningIsOldest(s.queue, s.pending, ids);
    assert forall x :: Running(s, e, x) ==> x in Selected(s.queue, e, OnCourse) && x in ids;
    match FirstRunning(s.queue, s.pending, ids) {
      case Some(q) =>
        Listed(s.queue, e, OnCourse, q);
        assert Running(s, e, q);
      case None =>
    }
  }

  /** When a finish is accepted. The time is truncated before its sign is looked at, so a goal
      up to 999 microseconds before the start is not refused: it is a run of 0 ms. */
  lemma FinishAcceptedExactly(s: State, q: int, goalUs: int, source: Source, now: int)
    requires q in s.queue
    ensures FinishCar(s, q, goalUs, source, now).reply == Ok <==>
            s.queue[q].status == OnCourse && s.queue[q].tStart.Some? && q !in s.pending && goalUs - s.queue[q].tStart.value > -1000
  {
    if s.queue[q].tStart.Some? {
      TruncDivNegative(goalUs - s.queue[q].tStart.value, 1000);
    }
  }

  /** A goal 999 microseconds before the start: the car finishes in 0 ms. */
  lemma GoalJustBeforeStart(s: State, q: int, now: int)
    requires q in s.queue && s.queue[q].status == OnCourse && s.queue[q].tStart == Some(5000) && q !in s.pending
    ensures var r := FinishCar(s, q, 4001, Sensor, now);
            r.reply == Ok && q in r.s.pending && r.s.pending[q].finMs == 0
  {
    assert TruncDiv(-999, 1000) == 0;
  }

  /** What a goal with no running car does with the orphan run it is paired with: it throws the
      run away exactly when the goal lies 1000 microseconds or more before the start, and otherwise
      writes an unassigned log whose time is within the course's limit. */
  ghost predicate OrphanOutcome(s: State, e: int, tUs: int, run: OrphanRun, r: Result)
    requires e in s.events
  {
    && r.reply == Ok
    && (tUs - run.tStart <= -1000 ==> r.s.logs == s.logs && GoalBeforeStart(run, tUs) in r.s.warnings)
    && (tUs - run.tStart > -1000 ==>
          && s.nextLog in r.s.logs && r.s.logs == s.logs[s.nextLog := r.s.logs[s.nextLog]]
          && UnassignedLog(run, s.nextLog) in r.s.warnings
          && var l := r.s.logs[s.nextLog];
             && l.origin == FromOrphan(run) && l.driver == None && l.vehicle == None && 0 <= l.rawMs
             && (0 <= s.events[e].maxSec ==> l.rawMs <= 1000 * s.events[e].maxSec))
  }

  /** A goal that finds no running car is paired with the unexpired orphan run of least id, if
      there is one; that run and the expired ones leave the FIFO, and no other run does. */
  lemma OrphanGoalOutcome(s: State, e: int, tUs: int, now: int)
    requires Inv(s) && e in s.events
    ensures var max := s.events[e].maxSec; var r := GoalForOrphan(s, e, tUs, now);
            if forall o :: o in s.orphans ==> Expired(o, tUs, max)
            then r.reply == NoTarget && r.s.orphans == [] && r.s.logs == s.logs
            else exists run :: OldestUnexpired(s.orphans, run, tUs, max)
                   && OrphanOutcome(s, e, tUs, run, r)
                   && (forall o :: o in r.s.orphans <==> o in s.orphans && !Expired(o, tUs, max) && o != run)
  {
    var max := s.events[e].maxSec;
    var kept := Kept(s.orphans, tUs, max);
    SelectSound(s.orphans, tUs, max, false);
    if kept == [] {
      assert forall o :: o in s.orphans ==> o !in kept;
    } else {
      var run := kept[0];
      HeadIsOldest(s.orphans, tUs, max);
      PairedOutcome(s, e, tUs, now);
      KeptTail(s.orphans, tUs, max);
      assert OldestUnexpired(s.orphans, run, tUs, max);
    }
  }

  ghost predicate OldestUnexpired(rs: seq<OrphanRun>, run: OrphanRun, refUs: int, maxSec: int) {
    && run in rs && !Expired(run, refUs, maxSec)
    && forall o :: o in rs && !Expired(o, refUs, maxSec) ==> run.id <= o.id
  }

  lemma PairedOutcome(s: State, e: int, tUs: int, now: int)
    requires e in s.events && Kept(s.orphans, tUs, s.events[e].maxSec) != []
    ensures OrphanOutcome(s, e, tUs, Kept(s.orphans, tUs, s.events[e].maxSec)[0], GoalForOrphan(s, e, tUs, now))
  {
    var max := s.events[e].maxSec;
    var run := Kept(s.orphans, tUs, max)[0];
    SelectSound(s.orphans, tUs, max, false);
    assert !Expired(run, tUs, max) by { var kept := Kept(s.orphans, tUs, max); assert run in kept; }
    TruncDivNegative(tUs - run.tStart, 1000);
    var ws := GoalForOrphan(s, e, tUs, now).s.warnings;
    var last := ws[|ws| - 1];
    assert last in ws;
  }

  lemma KeptTail(rs: seq<OrphanRun>, refUs: int, maxSec: int)
    requires Increasing(rs) && Kept(rs, refUs, maxSec) != []
    ensures var kept := Kept(rs, refUs, maxSec);
            forall o :: o in kept[1..] <==> o in rs && !Expired(o, refUs, maxSec) && o != kept[0]
  {
    var kept := Kept(rs, refUs, maxSec);
    SelectSound(rs, refUs, maxSec, false);
    SelectIncreasing(rs, refUs, maxSec, false);
    forall o ensures o in kept[1..] <==> o in kept && o != kept[0] {
      assert kept == [kept[0]] + kept[1..];
      if o in kept[1..] { var k :| 0 <= k < |kept[1..]| && kept[1..][k] == o; assert kept[k + 1] == o; }
    }
  }
}
