/** The course protocol told from the rows: what each request, trigger and timer means for one row,
    whatever the tables hold, and that the protocol does to every row just that. */
module CourseLaws {
  import opened Common
  import opened QueueTable
  import opened Course
  import opened CourseInv
  import CourseRuns
  import OF = OrphanFifo
  import QueueOrder

  /** What a step means for one row. */
  datatype Change =
    | Unmoved
    | Withdrawn                       // canceled
    | OnTrack(start: Option<int>)     // launched, with its start if it has one
    | Started(at: int)
    | Rearmed                         // start, penalties and mis-course taken back, still on course
    | SentBack                        // the same, and back in the queue
    | Completed
    | Penalised(delta: int)
    | Flipped                         // mis-course

  /** The row afterwards, up to its position. */
  function Changed(r: Row, c: Change): (r': Row) {
    match c
    case Unmoved => r
    case Withdrawn => r.(status := Canceled)
    case OnTrack(start) => r.(status := OnCourse, tStart := start)
    case Started(at) => r.(tStart := Some(at))
    case Rearmed => r.(tStart := None, pt := 0, mc := false)
    case SentBack => r.(status := Waiting, tStart := None, pt := 0, mc := false)
    case Completed => r.(status := Done)
    case Penalised(delta) => r.(pt := r.pt + delta)
    case Flipped => r.(mc := !r.mc)
  }

  // ---------------------------------------------------------------- who is meant

  ghost predicate InActive(s: State, q: int, st: Status) {
    s.active.Some? && q in s.queue && s.queue[q].event == s.active.value && s.queue[q].status == st
  }

  /** Ahead of the other in the waiting list. */
  predicate WaitsAhead(t: Table, a: int, b: int)
    requires a in t && b in t
  {
    t[a].position < t[b].position || (t[a].position == t[b].position && a < b)
  }

  ghost predicate IsHead(s: State, q: int) {
    InActive(s, q, Waiting) && forall x :: InActive(s, x, Waiting) && x != q ==> WaitsAhead(s.queue, q, x)
  }

  /** The first waiting row of the driver. */
  ghost predicate IsFirstWaitingOf(s: State, driver: int, q: int) {
    && InActive(s, q, Waiting) && s.queue[q].driver == driver
    && forall x :: InActive(s, x, Waiting) && s.queue[x].driver == driver && x != q ==> WaitsAhead(s.queue, q, x)
  }

  /** The driver's row on course with the least id. */
  ghost predicate IsFirstOnCourseOf(s: State, driver: int, q: int) {
    && InActive(s, q, OnCourse) && s.queue[q].driver == driver
    && forall x :: InActive(s, x, OnCourse) && s.queue[x].driver == driver ==> q <= x
  }

  ghost predicate HasRow(s: State, driver: int, st: Status) {
    exists x :: InActive(s, x, st) && s.queue[x].driver == driver
  }

  ghost predicate IsOldestReady(s: State, q: int) {
    s.active.Some? && CourseRuns.Ready(s, s.active.value, q) && forall x :: CourseRuns.Ready(s, s.active.value, x) ==> q <= x
  }

  ghost predicate IsOldestRunning(s: State, q: int) {
    s.active.Some? && CourseRuns.Running(s, s.active.value, q) && forall x :: CourseRuns.Running(s, s.active.value, x) ==> q <= x
  }

  predicate SensorMode(s: State, e: int) {
    e in s.events && s.events[e].sensorMode
  }

  /** A tap counts by the client's clock if that is within two seconds of the server's. */
  function TapUs(clientMs: Option<int>, now: int): (us: int) {
    if clientMs.Some? && now - 2000 <= clientMs.value <= now + 2000 then clientMs.value * 1000 else now * 1000
  }

  /** What the step means for the row. */
  ghost function Meant(s: State, step: Step, q: int): (c: Change)
    requires q in s.queue
  {
    var r := s.queue[q];
    match step
    case DoMyQueueCancel(d) => if IsFirstWaitingOf(s, d, q) then Withdrawn else Unmoved
    case DoQueueCancel(x) => if x == q && r.status == Waiting then Withdrawn else Unmoved
    case DoEventClose(e) =>
      if r.event == e && r.status == Waiting && (forall x :: x in s.queue && s.queue[x].event == e ==> s.queue[x].status != OnCourse)
      then Withdrawn else Unmoved
    case DoLaunch(c, now) =>
      if IsHead(s, q) then OnTrack(if SensorMode(s, r.event) then None else Some(TapUs(c, now))) else Unmoved
    case DoSelfLaunch(d) =>
      if IsHead(s, q) && r.driver == d && SensorMode(s, r.event) && !HasRow(s, d, OnCourse) then OnTrack(None) else Unmoved
    case DoAdopt(id) =>
      if IsHead(s, q) && exists run :: run in s.orphans && run.id == id
      then var run :| run in s.orphans && run.id == id; OnTrack(Some(run.tStart)) else Unmoved
    case DoManualStart(c, now) => if IsOldestReady(s, q) then Started(TapUs(c, now)) else Unmoved
    case DoSensorStart(tUs, _) => if IsOldestReady(s, q) then Started(tUs) else Unmoved
    case DoSelfLaunchUndo(d) => if IsFirstOnCourseOf(s, d, q) && r.tStart == None && q !in s.pending then SentBack else Unmoved
    case DoUndoStart(x) =>
      if x != q || r.status != OnCourse || q in s.pending then Unmoved
      else if r.tStart.Some? && SensorMode(s, r.event) then Rearmed else SentBack
    case DoCancel(x) => if x == q && r.status == OnCourse && q !in s.pending then Withdrawn else Unmoved
    case DoConfirm(x) => if x == q && q in s.pending then Completed else Unmoved
    case DoSetPt(x, delta) => if x == q && r.status == OnCourse && r.pt + delta >= 0 then Penalised(delta) else Unmoved
    case DoToggleMc(x) => if x == q && r.status == OnCourse then Flipped else Unmoved
    case _ => Unmoved
  }

  ghost predicate RowFollows(s: State, step: Step, s': State, q: int)
    requires q in s.queue
  {
    q in s'.queue && s'.queue[q] == Changed(s.queue[q], Meant(s, step, q)).(position := s'.queue[q].position)
  }

  ghost predicate RowsFollow(s: State, step: Step, s': State) {
    forall q :: q in s.queue ==> RowFollows(s, step, s', q)
  }

  // ---------------------------------------------------------------- the scans find who is meant

  lemma {:induction false} DriverScan(t: Table, st: Status, ids: seq<int>, driver: int)
    requires AllIn(t, ids) && forall i, j :: 0 <= i < j < |ids| ==> Before(t, st, ids[i], ids[j])
    ensures match FirstOfDriver(t, ids, driver)
            case Some(q) => q in ids && q in t && t[q].driver == driver
                            && forall x :: x in ids && x in t && t[x].driver == driver && x != q ==> Before(t, st, q, x)
            case None => forall x :: x in ids && x in t ==> t[x].driver != driver
  {
    if ids != [] {
      var head, tail := ids[0], ids[1..];
      assert forall i :: 0 <= i < |tail| ==> tail[i] == ids[i + 1];
      DriverScan(t, st, tail, driver);
      assert ids == [head] + tail;
      assert head in ids;
      forall x | x in tail ensures x in t && Before(t, st, head, x) { var k :| 0 <= k < |tail| && tail[k] == x; }
    }
  }

  lemma ListedActive(s: State, st: Status)
    requires s.active.Some?
    ensures forall q :: q in ListQueue(s.queue, s.active.value, st) <==> InActive(s, q, st)
  {
    forall q ensures q in ListQueue(s.queue, s.active.value, st) <==> InActive(s, q, st) {
      assert q in ListQueue(s.queue, s.active.value, st) <==> q in Selected(s.queue, s.active.value, st);
    }
  }

  lemma WaitingScan(s: State, driver: int)
    requires s.active.Some?
    ensures match FirstOfDriver(s.queue, Waitlist(s.queue, s.active.value), driver)
            case Some(q) => IsFirstWaitingOf(s, driver, q) && forall x :: IsFirstWaitingOf(s, driver, x) ==> x == q
            case None => !HasRow(s, driver, Waiting)
  {
    ListedActive(s, Waiting);
    DriverScan(s.queue, Waiting, Waitlist(s.queue, s.active.value), driver);
  }

  lemma OnCourseScan(s: State, driver: int)
    requires s.active.Some?
    ensures match FirstOfDriver(s.queue, ListQueue(s.queue, s.active.value, OnCourse), driver)
            case Some(q) => IsFirstOnCourseOf(s, driver, q) && HasRow(s, driver, OnCourse) && forall x :: IsFirstOnCourseOf(s, driver, x) ==> x == q
            case None => !HasRow(s, driver, OnCourse)
  {
    ListedActive(s, OnCourse);
    DriverScan(s.queue, OnCourse, ListQueue(s.queue, s.active.value, OnCourse), driver);
  }

  lemma HeadScan(s: State)
    requires s.active.Some?
    ensures var w := Waitlist(s.queue, s.active.value);
            && (w != [] ==> IsHead(s, w[0]) && forall x :: IsHead(s, x) ==> x == w[0])
            && (w == [] ==> forall x :: !InActive(s, x, Waiting))
  {
    ListedActive(s, Waiting);
    var w := Waitlist(s.queue, s.active.value);
    if w != [] {
      var h := w[0];
      assert h in w;
      forall x | InActive(s, x, Waiting) && x != h ensures WaitsAhead(s.queue, h, x) {
        var k :| 0 <= k < |w| && w[k] == x;
        assert Before(s.queue, Waiting, w[0], w[k]);
      }
    }
  }

  lemma ReadyScan(s: State)
    requires s.active.Some?
    ensures match FirstReady(s.queue, ListQueue(s.queue, s.active.value, OnCourse))
            case Some(q) => IsOldestReady(s, q) && forall x :: IsOldestReady(s, x) ==> x == q
            case None => forall x :: !CourseRuns.Ready(s, s.active.value, x)
  {
    ListedActive(s, OnCourse);
    CourseRuns.FirstReadyIsOldest(s.queue, ListQueue(s.queue, s.active.value, OnCourse));
    forall x | CourseRuns.Ready(s, s.active.value, x) ensures InActive(s, x, OnCourse) && x in ListQueue(s.queue, s.active.value, OnCourse) { }
  }

  lemma RunningScan(s: State)
    requires s.active.Some?
    ensures match FirstRunning(s.queue, s.pending, ListQueue(s.queue, s.active.value, OnCourse))
            case Some(q) => IsOldestRunning(s, q) && forall x :: IsOldestRunning(s, x) ==> x == q
            case None => forall x :: !CourseRuns.Running(s, s.active.value, x)
  {
    ListedActive(s, OnCourse);
    CourseRuns.FirstRunningIsOldest(s.queue, s.pending, ListQueue(s.queue, s.active.value, OnCourse));
    forall x | CourseRuns.Running(s, s.active.value, x) ensures InActive(s, x, OnCourse) && x in ListQueue(s.queue, s.active.value, OnCourse) { }
  }

  lemma TapIsCorrected(clientMs: Option<int>, now: int)
    ensures CorrectedMs(clientMs, now) * 1000 == TapUs(clientMs, now)
  {
  }

  // ---------------------------------------------------------------- and the step does that

  /** One row is rewritten, and it is the one that is meant. */
  lemma OneFollows(s: State, step: Step, s': State, q: int)
    requires q in s.queue && q in s'.queue && s'.queue == s.queue[q := s'.queue[q]] && RowFollows(s, step, s', q)
    requires forall x :: x in s.queue && x != q ==> Meant(s, step, x) == Unmoved
    ensures RowsFollow(s, step, s')
  {
    forall x | x in s.queue ensures RowFollows(s, step, s', x) {
      if x != q { assert s'.queue[x] == s.queue[x]; }
    }
  }

  lemma NoneFollows(s: State, step: Step, s': State)
    requires s'.queue == s.queue && forall q :: q in s.queue ==> Meant(s, step, q) == Unmoved
    ensures RowsFollow(s, step, s')
  {
  }

  lemma LaunchFollows(s: State, clientMs: Option<int>, now: int)
    requires Inv(s)
    ensures RowsFollow(s, DoLaunch(clientMs, now), Launch(s, clientMs, now).s)
  {
    var s' := Launch(s, clientMs, now).s;
    if s.active.Some? {
      HeadScan(s);
      TapIsCorrected(clientMs, now);
      var w := Waitlist(s.queue, s.active.value);
      if w != [] {
        assert w[0] in s.queue;
        OneFollows(s, DoLaunch(clientMs, now), s', w[0]);
      } else {
        NoneFollows(s, DoLaunch(clientMs, now), s');
      }
    }
  }

  lemma SelfLaunchFollows(s: State, driver: int)
    requires Inv(s)
    ensures RowsFollow(s, DoSelfLaunch(driver), SelfLaunch(s, driver).s)
  {
    var s' := SelfLaunch(s, driver).s;
    if s.active.Some? {
      HeadScan(s);
      OnCourseScan(s, driver);
      var w := Waitlist(s.queue, s.active.value);
      if s' != s { OneFollows(s, DoSelfLaunch(driver), s', w[0]); } else { NoneFollows(s, DoSelfLaunch(driver), s'); }
    }
  }

  lemma AdoptMeans(s: State, id: int, x: int)
    requires Inv(s) && x in s.queue
    ensures var i := OF.IndexOf(s.orphans, id);
            Meant(s, DoAdopt(id), x) == if IsHead(s, x) && i < |s.orphans| then OnTrack(Some(s.orphans[i].tStart)) else Unmoved
  {
    RunWithId(s, id);
  }

  lemma AdoptFollows(s: State, id: int)
    requires Inv(s)
    ensures RowsFollow(s, DoAdopt(id), Adopt(s, id).s)
  {
    var s' := Adopt(s, id).s;
    if s.active.Some? {
      HeadScan(s);
      forall x | x in s.queue ensures RowFollows(s, DoAdopt(id), s', x) { AdoptMeans(s, id, x); }
    }
  }

  lemma RunWithId(s: State, id: int)
    requires Inv(s)
    ensures var i := OF.IndexOf(s.orphans, id);
            && (i < |s.orphans| <==> exists run :: run in s.orphans && run.id == id)
            && (forall run :: run in s.orphans && run.id == id ==> i < |s.orphans| && run == s.orphans[i])
  {
    var i := OF.IndexOf(s.orphans, id);
    forall run | run in s.orphans && run.id == id ensures i < |s.orphans| && run == s.orphans[i] {
      var k :| 0 <= k < |s.orphans| && s.orphans[k] == run;
      OF.IndexOfPresent(s.orphans, k);
    }
    if i < |s.orphans| { var run := s.orphans[i]; assert run in s.orphans && run.id == id; }
  }

  lemma SensorStartFollows(s: State, tUs: int, now: int)
    requires Inv(s)
    ensures RowsFollow(s, DoSensorStart(tUs, now), SensorStart(s, tUs, now).s)
  {
    if s.active.Some? {
      ReadyScan(s);
      match FirstReady(s.queue, ListQueue(s.queue, s.active.value, OnCourse))
      case Some(q) => OneFollows(s, DoSensorStart(tUs, now), SensorStart(s, tUs, now).s, q);
      case None => NoneFollows(s, DoSensorStart(tUs, now), SensorStart(s, tUs, now).s);
    }
  }

  lemma ManualStartFollows(s: State, clientMs: Option<int>, now: int)
    requires Inv(s)
    ensures RowsFollow(s, DoManualStart(clientMs, now), ManualStart(s, clientMs, now).s)
  {
    if s.active.Some? {
      ReadyScan(s);
      TapIsCorrected(clientMs, now);
      match FirstReady(s.queue, ListQueue(s.queue, s.active.value, OnCourse))
      case Some(q) => OneFollows(s, DoManualStart(clientMs, now), ManualStart(s, clientMs, now).s, q);
      case None => NoneFollows(s, DoManualStart(clientMs, now), ManualStart(s, clientMs, now).s);
    }
  }

  /** What undo-start does to the rows. */
  function Undone(s: State, q: int): (c: Change)
    requires q in s.queue
  {
    var r := s.queue[q];
    if r.status != OnCourse || q in s.pending then Unmoved
    else if r.tStart.Some? && SensorMode(s, r.event) then Rearmed else SentBack
  }

  lemma UndoRows(s: State, q: int)
    requires q in s.queue
    ensures var t := UndoStart(s, q).s.queue;
            t.Keys == s.queue.Keys
            && forall x :: x in s.queue ==> t[x] == Changed(s.queue[x], if x == q then Undone(s, q) else Unmoved).(position := t[x].position)
  {
    CleanedIs(s.queue, q);
    if Undone(s, q) == SentBack { ReturnedRows(Cleaned(s.queue, q), q); }
  }

  lemma CleanedIs(t: Table, q: int)
    requires q in t
    ensures Cleaned(t, q) == t[q := t[q].(tStart := None, pt := 0, mc := false)]
  {
  }

  lemma ReturnedRows(t: Table, q: int)
    requires q in t && t[q].status != Waiting
    ensures var t' := QueueOrder.Returned(t, q);
            t'.Keys == t.Keys && forall x :: x in t ==> t'[x] == (if x == q then t[x].(status := Waiting) else t[x]).(position := t'[x].position)
  {
    var w1 := WithStatus(t, q, Waiting);
    QueueOrder.ReorderTouches(w1, q, FrontPosition(w1, t[q].event));
  }

  lemma UndoStartFollows(s: State, q: int)
    requires Inv(s)
    ensures RowsFollow(s, DoUndoStart(q), UndoStartById(s, q).s)
  {
    if q in s.queue { UndoRows(s, q); }
  }

  lemma SelfLaunchUndoMeans(s: State, driver: int, q: int, x: int)
    requires x in s.queue && IsFirstOnCourseOf(s, driver, q) && forall y :: IsFirstOnCourseOf(s, driver, y) ==> y == q
    ensures Meant(s, DoSelfLaunchUndo(driver), x) == if x == q && s.queue[q].tStart == None then Undone(s, q) else Unmoved
  {
  }

  lemma SelfLaunchUndoFollows(s: State, driver: int)
    requires Inv(s)
    ensures RowsFollow(s, DoSelfLaunchUndo(driver), SelfLaunchUndo(s, driver).s)
  {
    var s' := SelfLaunchUndo(s, driver).s;
    if s.active.Some? {
      OnCourseScan(s, driver);
      var first := FirstOfDriver(s.queue, ListQueue(s.queue, s.active.value, OnCourse), driver);
      if first.Some? {
        var q := first.value;
        UndoRows(s, q);
        forall x | x in s.queue ensures RowFollows(s, DoSelfLaunchUndo(driver), s', x) { SelfLaunchUndoMeans(s, driver, q, x); }
      }
    }
  }

  lemma MyQueueCancelFollows(s: State, driver: int)
    requires Inv(s)
    ensures RowsFollow(s, DoMyQueueCancel(driver), MyQueueCancel(s, driver).s)
  {
    if s.active.Some? {
      WaitingScan(s, driver);
      match FirstOfDriver(s.queue, Waitlist(s.queue, s.active.value), driver)
      case None =>
      case Some(q) => OneFollows(s, DoMyQueueCancel(driver), MyQueueCancel(s, driver).s, q);
    }
  }

  lemma CloseFollows(s: State, e: int)
    requires Inv(s)
    ensures RowsFollow(s, DoEventClose(e), EventClose(s, e).s)
  {
    var ids := ListQueue(s.queue, e, OnCourse);
    forall x ensures x in ids <==> x in s.queue && s.queue[x].event == e && s.queue[x].status == OnCourse {
      assert x in ids <==> x in Selected(s.queue, e, OnCourse);
    }
    if ids != [] { var x := ids[0]; assert x in ids; }
  }

  lemma ByIdFollow(s: State, step: Step)
    requires Inv(s)
    requires step.DoQueueCancel? || step.DoCancel? || step.DoConfirm? || step.DoSetPt? || step.DoToggleMc?
    ensures RowsFollow(s, step, Apply(s, step).s)
  {
    var s' := Apply(s, step).s;
    if step.q in s.queue { OneFollows(s, step, s', step.q); }
  }

  lemma ReorderFollows(s: State, q: int, p: real)
    requires Inv(s)
    ensures RowsFollow(s, DoQueueReorder(q, p), QueueReorder(s, q, p).s)
  {
    if q in s.queue && s.queue[q].status == Waiting { QueueOrder.ReorderTouches(s.queue, q, p); }
  }

  lemma AddsFollow(s: State, step: Step)
    requires Inv(s) && (step.DoQueueAdd? || step.DoMyQueueAdd?)
    ensures RowsFollow(s, step, Apply(s, step).s)
  {
    assert forall q :: q in s.queue ==> q < s.nextQueue;
  }

  lemma FinishesFollow(s: State, step: Step)
    requires Inv(s) && (step.DoFinishOldest? || step.DoFinishById? || step.DoUndoGoal? || step.DoSensorGoal?)
    ensures RowsFollow(s, step, Apply(s, step).s)
  {
    CourseRuns.FinishesTouchNoRow(s, step);
  }

  predicate InTheOffice(step: Step) {
    step.DoDismissRun? || step.DoEventCreate? || step.DoSettingsUpdate? || step.DoLogCreate? || step.DoLogUpdate? || step.DoLogDelete? || step.DoLogAssign?
  }

  lemma OfficeFollows(s: State, step: Step)
    requires Inv(s) && InTheOffice(step)
    ensures RowsFollow(s, step, Apply(s, step).s)
  {
    CourseRuns.OthersTouchNoRow(s, step);
  }

  predicate OfACar(step: Step) {
    step.DoLaunch? || step.DoSelfLaunch? || step.DoAdopt? || step.DoSensorStart? || step.DoManualStart? || step.DoUndoStart? || step.DoSelfLaunchUndo?
  }

  lemma CarStepsFollow(s: State, step: Step)
    requires Inv(s) && OfACar(step)
    ensures RowsFollow(s, step, Apply(s, step).s)
  {
    match step
    case DoLaunch(c, now) => LaunchFollows(s, c, now);
    case DoSelfLaunch(d) => SelfLaunchFollows(s, d);
    case DoAdopt(id) => AdoptFollows(s, id);
    case DoSensorStart(tUs, now) => SensorStartFollows(s, tUs, now);
    case DoManualStart(c, now) => ManualStartFollows(s, c, now);
    case DoUndoStart(q) => UndoStartFollows(s, q);
    case DoSelfLaunchUndo(d) => SelfLaunchUndoFollows(s, d);
  }

  lemma ListStepsFollow(s: State, step: Step)
    requires Inv(s)
    requires step.DoMyQueueCancel? || step.DoEventClose? || step.DoQueueReorder? || step.DoQueueAdd? || step.DoMyQueueAdd?
    ensures RowsFollow(s, step, Apply(s, step).s)
  {
    match step
    case DoMyQueueCancel(d) => MyQueueCancelFollows(s, d);
    case DoEventClose(e) => CloseFollows(s, e);
    case DoQueueReorder(q, p) => ReorderFollows(s, q, p);
    case DoQueueAdd(_, _) => AddsFollow(s, step);
    case DoMyQueueAdd(_, _) => AddsFollow(s, step);
  }

  /** Every step does to every row exactly what it means for that row. */
  lemma RowsFollowSteps(s: State, step: Step)
    requires Inv(s)
    ensures RowsFollow(s, step, Apply(s, step).s)
  {
    if OfACar(step) { CarStepsFollow(s, step); }
    else if InTheOffice(step) { OfficeFollows(s, step); }
    else if step.DoFinishOldest? || step.DoFinishById? || step.DoUndoGoal? || step.DoSensorGoal? { FinishesFollow(s, step); }
    else if step.DoQueueCancel? || step.DoCancel? || step.DoConfirm? || step.DoSetPt? || step.DoToggleMc? { ByIdFollow(s, step); }
    else { ListStepsFollow(s, step); }
  }

  // ---------------------------------------------------------------- new rows

  /** The entry this step makes, if it makes one: not for a driver and vehicle already waiting, and by
      the driver's own hand only where that is allowed and the driver is neither waiting nor on course. */
  ghost predicate Enters(s: State, step: Step, driver: int, vehicle: int) {
    && s.active.Some?
    && (forall x :: InActive(s, x, Waiting) && s.queue[x].driver == driver ==> s.queue[x].vehicle != vehicle)
    && (|| step == DoQueueAdd(driver, vehicle)
        || (step == DoMyQueueAdd(driver, vehicle) && s.active.value in s.events && s.events[s.active.value].selfEntry
            && !HasRow(s, driver, Waiting) && !HasRow(s, driver, OnCourse)))
  }

  /** A new row is clean, waits behind the others, and is there exactly when the step enters one. */
  ghost predicate RowsJoin(s: State, step: Step, s': State) {
    && (forall q :: q in s'.queue && q !in s.queue ==>
          && q == s.nextQueue && s.active.Some?
          && Enters(s, step, s'.queue[q].driver, s'.queue[q].vehicle)
          && s'.queue[q] == Row(s.active.value, s'.queue[q].driver, s'.queue[q].vehicle, s'.queue[q].position, Waiting, None, 0, false))
    && (forall d, v :: Enters(s, step, d, v) ==> s.nextQueue in s'.queue && s'.queue[s.nextQueue].driver == d && s'.queue[s.nextQueue].vehicle == v)
    && s'.nextQueue == s.nextQueue + if s.nextQueue in s'.queue then 1 else 0
  }

  lemma WaitingAlready(s: State, driver: int, vehicle: int)
    requires s.active.Some?
    ensures AlreadyWaiting(s.queue, s.active.value, driver, vehicle) <==>
            exists x :: InActive(s, x, Waiting) && s.queue[x].driver == driver && s.queue[x].vehicle == vehicle
  {
  }

  lemma AddJoins(s: State, driver: int, vehicle: int)
    requires Inv(s)
    ensures RowsJoin(s, DoQueueAdd(driver, vehicle), QueueAdd(s, driver, vehicle).s)
  {
    if s.active.Some? { WaitingAlready(s, driver, vehicle); }
  }

  lemma MyAddJoins(s: State, driver: int, vehicle: int)
    requires Inv(s)
    ensures RowsJoin(s, DoMyQueueAdd(driver, vehicle), MyQueueAdd(s, driver, vehicle).s)
  {
    if s.active.Some? {
      WaitingAlready(s, driver, vehicle);
      WaitingScan(s, driver);
      OnCourseScan(s, driver);
    }
  }

  /** Rows come into being by entries alone, with the driver and vehicle asked for. */
  lemma RowsJoinByEntries(s: State, step: Step)
    requires Inv(s)
    ensures RowsJoin(s, step, Apply(s, step).s)
  {
    match step
    case DoQueueAdd(d, v) => AddJoins(s, d, v);
    case DoMyQueueAdd(d, v) => MyAddJoins(s, d, v);
    case _ => OthersJoinNone(s, step, Apply(s, step).s);
  }

  lemma OthersJoinNone(s: State, step: Step, s': State)
    requires Inv(s) && !step.DoQueueAdd? && !step.DoMyQueueAdd? && s' == Apply(s, step).s
    ensures RowsJoin(s, step, s')
  {
    OthersMakeNoRow(s, step);
    NoNewRows(s, step, s');
  }

  lemma NoNewRows(s: State, step: Step, s': State)
    requires Inv(s) && !step.DoQueueAdd? && !step.DoMyQueueAdd?
    requires s'.queue.Keys == s.queue.Keys && s'.nextQueue == s.nextQueue
    ensures RowsJoin(s, step, s')
  {
    assert forall q :: q in s.queue ==> q < s.nextQueue;
  }

  lemma OthersMakeNoRow(s: State, step: Step)
    requires Inv(s) && !step.DoQueueAdd? && !step.DoMyQueueAdd?
    ensures var s' := Apply(s, step).s; s'.queue.Keys == s.queue.Keys && s'.nextQueue == s.nextQueue
  {
    if InTheOffice(step) { CourseRuns.OthersTouchNoRow(s, step); OfficeCounts(s, step); }
    else if step.DoFinishOldest? || step.DoFinishById? || step.DoUndoGoal? || step.DoSensorGoal? {
      CourseRuns.FinishesTouchNoRow(s, step);
      FinishesCount(s, step);
    } else { RowStepsMakeNoRow(s, step); }
  }

  lemma OfficeCounts(s: State, step: Step)
    requires Inv(s) && InTheOffice(step)
    ensures Apply(s, step).s.nextQueue == s.nextQueue
  {
  }

  lemma FinishesCount(s: State, step: Step)
    requires Inv(s) && (step.DoFinishOldest? || step.DoFinishById? || step.DoUndoGoal? || step.DoSensorGoal?)
    ensures Apply(s, step).s.nextQueue == s.nextQueue
  {
  }

  lemma RowStepsMakeNoRow(s: State, step: Step)
    requires Inv(s) && !InTheOffice(step) && !step.DoQueueAdd? && !step.DoMyQueueAdd?
    requires !step.DoFinishOldest? && !step.DoFinishById? && !step.DoUndoGoal? && !step.DoSensorGoal?
    ensures var s' := Apply(s, step).s; s'.queue.Keys == s.queue.Keys && s'.nextQueue == s.nextQueue
  {
  }
}
