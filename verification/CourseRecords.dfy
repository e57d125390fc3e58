/** What the course protocol puts on record: logs, pending finishes, orphan runs and warnings, told
    from the requests, triggers and timers alone. */
module CourseRecords {
  import opened Common
  import opened QueueTable
  import opened OrphanFifo
  import opened Course
  import opened CourseInv
  import opened CourseLaws
  import CourseRuns

  /** A time in whole milliseconds; what is less than a millisecond early counts as none. */
  predicate Elapsed(rawMs: int, startUs: int, goalUs: int) {
    if goalUs >= startUs then 1000 * rawMs <= goalUs - startUs < 1000 * rawMs + 1000
    else goalUs - startUs > -1000 && rawMs == 0
  }

  lemma TruncIsElapsed(startUs: int, goalUs: int)
    requires goalUs - startUs > -1000
    ensures Elapsed(TruncDiv(goalUs - startUs, 1000), startUs, goalUs)
    ensures TruncDiv(goalUs - startUs, 1000) >= 0
  {
    TruncDivNegative(goalUs - startUs, 1000);
  }

  lemma TooEarlyIsNegative(startUs: int, goalUs: int)
    ensures TruncDiv(goalUs - startUs, 1000) < 0 <==> goalUs - startUs <= -1000
  {
    TruncDivNegative(goalUs - startUs, 1000);
  }

  // ---------------------------------------------------------------- finishes

  predicate CanFinish(s: State, q: int, goalUs: int) {
    && q in s.queue && s.queue[q].status == OnCourse && s.queue[q].tStart.Some? && q !in s.pending
    && goalUs - s.queue[q].tStart.value > -1000
  }

  /** The step finishes this row with a goal at goalUs. */
  ghost predicate Finishes(s: State, step: Step, q: int, goalUs: int, source: Source, now: int) {
    CanFinish(s, q, goalUs) &&
    match step
    case DoSensorGoal(t, n) => IsOldestRunning(s, q) && goalUs == t && source == Sensor && now == n
    case DoFinishOldest(c, n) => IsOldestRunning(s, q) && goalUs == TapUs(c, n) && source == Manual && now == n
    case DoFinishById(x, c, n) => x == q && goalUs == TapUs(c, n) && source == Manual && now == n
    case _ => false
  }

  /** The log of that finish. */
  predicate TellsFinish(l: LogRow, row: Row, q: int, goalUs: int, source: Source, now: int)
    requires row.tStart.Some?
  {
    && Elapsed(l.rawMs, row.tStart.value, goalUs)
    && l == LogRow(row.event, Some(row.driver), Some(row.vehicle), l.rawMs, row.pt, row.mc, now, source, false, false, FromFinish(q))
  }

  ghost predicate SameRest(s: State, s': State) {
    && s'.events == s.events && s'.active == s.active && s'.nextEvent == s.nextEvent
    && s'.queue == s.queue && s'.nextQueue == s.nextQueue
    && s'.orphans == s.orphans && s'.orphanSeq == s.orphanSeq && s'.warnings == s.warnings
  }

  /** The finish is put on record: one new log that tells it, one new pending finish that shows the
      same time and ends three seconds from now, and nothing else. */
  ghost predicate Recorded(s: State, s': State, q: int, goalUs: int, source: Source, now: int)
    requires CanFinish(s, q, goalUs)
  {
    && SameRest(s, s') && s'.nextLog == s.nextLog + 1
    && s.nextLog in s'.logs && s'.logs == s.logs[s.nextLog := s'.logs[s.nextLog]]
    && TellsFinish(s'.logs[s.nextLog], s.queue[q], q, goalUs, source, now)
    && s'.pending == s.pending[q := Pending(s.nextLog, s'.logs[s.nextLog].rawMs, now + 3000)]
  }

  lemma FinishIsRecorded(s: State, q: int, goalUs: int, source: Source, now: int)
    requires q in s.queue
    ensures var r := FinishCar(s, q, goalUs, source, now);
            if CanFinish(s, q, goalUs) then r.reply == Ok && Recorded(s, r.s, q, goalUs, source, now) else r == Result(s, Conflict)
  {
    if s.queue[q].tStart.Some? {
      TooEarlyIsNegative(s.queue[q].tStart.value, goalUs);
      if goalUs - s.queue[q].tStart.value > -1000 { TruncIsElapsed(s.queue[q].tStart.value, goalUs); }
    }
  }

  // ---------------------------------------------------------------- goals for orphan runs

  /** The step is a goal that no car can take. */
  ghost predicate GoalForNoCar(s: State, step: Step) {
    step.DoSensorGoal? && s.active.Some? && forall q :: !CourseRuns.Running(s, s.active.value, q)
  }

  /** And so goes to this run, the oldest still in time. */
  ghost predicate GoalForRun(s: State, step: Step, run: OrphanRun) {
    && GoalForNoCar(s, step) && s.active.value in s.events
    && IsOldestInTime(s.orphans, run, step.tUs, s.events[s.active.value].maxSec)
  }

  /** Its unassigned log. */
  predicate TellsRun(l: LogRow, event: int, run: OrphanRun, goalUs: int, now: int) {
    && Elapsed(l.rawMs, run.tStart, goalUs)
    && l == LogRow(event, None, None, l.rawMs, 0, false, now, Sensor, false, false, FromOrphan(run))
  }

  /** `out` is `ws` and then one warning for each run too old for the trigger, in order. */
  ghost predicate WarnsExpired(ws: seq<Warning>, orphans: seq<OrphanRun>, tUs: int, maxSec: int, out: seq<Warning>) {
    exists gone :: IsTooOld(orphans, gone, tUs, maxSec) && WarnsOf(ws, gone, out)
  }

  ghost predicate WarnsOf(ws: seq<Warning>, gone: seq<OrphanRun>, out: seq<Warning>) {
    |out| == |ws| + |gone| && out[..|ws|] == ws && forall i :: 0 <= i < |gone| ==> out[|ws| + i] == StartExpired(gone[i])
  }

  lemma PruneWarns(ws: seq<Warning>, orphans: seq<OrphanRun>, tUs: int, maxSec: int)
    requires Increasing(orphans)
    ensures WarnsExpired(ws, orphans, tUs, maxSec, Warned(ws, Pruned(orphans, tUs, maxSec)))
  {
    Partition(orphans, tUs, maxSec);
    var gone := Pruned(orphans, tUs, maxSec);
    assert WarnsOf(ws, gone, Warned(ws, gone));
  }

  /** The goal takes the run out of the FIFO, along with those too old, and warns of them all; it is
      logged unless it came a millisecond or more before the run's start. */
  ghost predicate RunRecorded(s: State, s': State, run: OrphanRun, goalUs: int, now: int)
    requires s.active.Some? && s.active.value in s.events
  {
    var e := s.active.value;
    var max := s.events[e].maxSec;
    && s'.events == s.events && s'.active == s.active && s'.nextEvent == s.nextEvent && s'.queue == s.queue
    && s'.nextQueue == s.nextQueue && s'.pending == s.pending && s'.orphanSeq == s.orphanSeq
    && IsInTime(s.orphans, [run] + s'.orphans, goalUs, max)
    && s'.warnings != [] && WarnsExpired(s.warnings, s.orphans, goalUs, max, s'.warnings[..|s'.warnings| - 1])
    && var last := s'.warnings[|s'.warnings| - 1];
       if goalUs - run.tStart <= -1000 then s'.logs == s.logs && s'.nextLog == s.nextLog && last == GoalBeforeStart(run, goalUs)
       else
         && s'.nextLog == s.nextLog + 1 && s.nextLog in s'.logs && s'.logs == s.logs[s.nextLog := s'.logs[s.nextLog]]
         && TellsRun(s'.logs[s.nextLog], e, run, goalUs, now) && last == UnassignedLog(run, s.nextLog)
  }

  /** A goal that finds neither car nor run: the runs too old are gone and warned of. */
  ghost predicate NothingRecorded(s: State, s': State, goalUs: int)
    requires s.active.Some? && s.active.value in s.events
  {
    && s' == s.(orphans := [], warnings := s'.warnings)
    && WarnsExpired(s.warnings, s.orphans, goalUs, s.events[s.active.value].maxSec, s'.warnings)
  }

  lemma PairIsRecorded(s: State, e: int, run: OrphanRun, tUs: int, now: int)
    ensures var s' := PairedWith(s, e, run, tUs, now);
            if tUs - run.tStart <= -1000 then s' == s.(warnings := s.warnings + [GoalBeforeStart(run, tUs)])
            else s' == s.(logs := s'.logs, nextLog := s.nextLog + 1, warnings := s.warnings + [UnassignedLog(run, s.nextLog)])
                 && s.nextLog in s'.logs && s'.logs == s.logs[s.nextLog := s'.logs[s.nextLog]] && TellsRun(s'.logs[s.nextLog], e, run, tUs, now)
  {
    TooEarlyIsNegative(run.tStart, tUs);
    if tUs - run.tStart > -1000 { TruncIsElapsed(run.tStart, tUs); }
  }

  lemma GoalForNoCarIsRecorded(s: State, tUs: int, now: int)
    requires Inv(s) && GoalForNoCar(s, DoSensorGoal(tUs, now))
    ensures var r := SensorGoal(s, tUs, now);
            if forall run :: !GoalForRun(s, DoSensorGoal(tUs, now), run) then r.reply == NoTarget && NothingRecorded(s, r.s, tUs)
            else exists run :: GoalForRun(s, DoSensorGoal(tUs, now), run) && r.reply == Ok && RunRecorded(s, r.s, run, tUs, now)
  {
    var step := DoSensorGoal(tUs, now);
    var e := s.active.value;
    var max := s.events[e].maxSec;
    var kept := Kept(s.orphans, tUs, max);
    RunningScan(s);
    assert SensorGoal(s, tUs, now) == GoalForOrphan(s, e, tUs, now);
    Partition(s.orphans, tUs, max);
    PruneWarns(s.warnings, s.orphans, tUs, max);
    if kept == [] {
      forall run ensures !GoalForRun(s, step, run) { assert run !in kept; }
    } else {
      var run := kept[0];
      assert run in kept;
      forall o | o in kept ensures run.id <= o.id { LeastFirst(kept, o); }
      assert GoalForRun(s, step, run);
      var t := s.(orphans := kept[1..], warnings := Warned(s.warnings, Pruned(s.orphans, tUs, max)));
      PairIsRecorded(t, e, run, tUs, now);
      var s' := PairedWith(t, e, run, tUs, now);
      assert [run] + kept[1..] == kept;
      assert s'.warnings[..|s'.warnings| - 1] == t.warnings;
      assert RunRecorded(s, s', run, tUs, now);
    }
  }

  // ---------------------------------------------------------------- every step

  /** Nothing but rows is touched. */
  predicate RowsOnly(s: State, s': State) {
    s' == s.(queue := s'.queue, nextQueue := s'.nextQueue)
  }

  ghost predicate SomeoneMeant(s: State, step: Step) {
    exists q :: q in s.queue && Meant(s, step, q) != Unmoved
  }

  ghost predicate SomeFinish(s: State, step: Step) {
    exists q, g, source, now :: Finishes(s, step, q, g, source, now)
  }

  ghost predicate FinishTold(s: State, step: Step, r: Result) {
    && (forall q, g, source, now :: Finishes(s, step, q, g, source, now) ==> r.reply == Ok && Recorded(s, r.s, q, g, source, now))
    && (!SomeFinish(s, step) ==> r.reply != Ok && r.s == s)
  }

  lemma FinishByIdTold(s: State, q: int, clientMs: Option<int>, now: int)
    requires Inv(s)
    ensures FinishTold(s, DoFinishById(q, clientMs, now), FinishById(s, q, clientMs, now))
  {
    TapIsCorrected(clientMs, now);
    if q in s.queue {
      FinishIsRecorded(s, q, TapUs(clientMs, now), Manual, now);
      assert CanFinish(s, q, TapUs(clientMs, now)) ==> Finishes(s, DoFinishById(q, clientMs, now), q, TapUs(clientMs, now), Manual, now);
    }
  }

  lemma FinishOldestTold(s: State, clientMs: Option<int>, now: int)
    requires Inv(s)
    ensures FinishTold(s, DoFinishOldest(clientMs, now), FinishOldest(s, clientMs, now))
  {
    TapIsCorrected(clientMs, now);
    if s.active.Some? {
      RunningScan(s);
      match FirstRunning(s.queue, s.pending, ListQueue(s.queue, s.active.value, OnCourse))
      case None =>
      case Some(q) =>
        FinishIsRecorded(s, q, TapUs(clientMs, now), Manual, now);
        assert CanFinish(s, q, TapUs(clientMs, now)) ==> Finishes(s, DoFinishOldest(clientMs, now), q, TapUs(clientMs, now), Manual, now);
    }
  }

  ghost predicate GoalTold(s: State, step: Step, r: Result)
    requires step.DoSensorGoal? && (s.active.Some? ==> s.active.value in s.events)
  {
    if !GoalForNoCar(s, step) then FinishTold(s, step, r)
    else if forall run :: !GoalForRun(s, step, run) then r.reply == NoTarget && NothingRecorded(s, r.s, step.tUs)
    else exists run :: GoalForRun(s, step, run) && r.reply == Ok && RunRecorded(s, r.s, run, step.tUs, step.now)
  }

  lemma SensorGoalTold(s: State, tUs: int, now: int)
    requires Inv(s)
    ensures GoalTold(s, DoSensorGoal(tUs, now), SensorGoal(s, tUs, now))
  {
    var step := DoSensorGoal(tUs, now);
    if GoalForNoCar(s, step) {
      GoalForNoCarIsRecorded(s, tUs, now);
    } else if s.active.Some? {
      RunningScan(s);
      var q := FirstRunning(s.queue, s.pending, ListQueue(s.queue, s.active.value, OnCourse)).value;
      FinishIsRecorded(s, q, tUs, Sensor, now);
      assert CanFinish(s, q, tUs) ==> Finishes(s, step, q, tUs, Sensor, now);
    }
  }

  /** A start that finds a car touches its row alone; one that finds none becomes an orphan run. */
  ghost predicate StartTold(s: State, step: Step, r: Result)
    requires step.DoSensorStart? && (s.active.Some? ==> s.active.value in s.events)
  {
    if s.active == None then r == Result(s, NoTarget)
    else if SomeoneMeant(s, step) then r.reply == Ok && RowsOnly(s, r.s)
    else
      var max := s.events[s.active.value].maxSec;
      && r.reply == Ok && r.s == s.(orphans := r.s.orphans, orphanSeq := s.orphanSeq + 1, warnings := r.s.warnings)
      && r.s.orphans != [] && r.s.orphans[|r.s.orphans| - 1] == OrphanRun(s.orphanSeq + 1, step.tUs, step.now)
      && IsInTime(s.orphans, r.s.orphans[..|r.s.orphans| - 1], step.tUs, max)
      && WarnsExpired(s.warnings, s.orphans, step.tUs, max, r.s.warnings)
  }

  lemma SensorStartTold(s: State, tUs: int, now: int)
    requires Inv(s)
    ensures StartTold(s, DoSensorStart(tUs, now), SensorStart(s, tUs, now))
  {
    if s.active.Some? {
      var e := s.active.value;
      ReadyScan(s);
      match FirstReady(s.queue, ListQueue(s.queue, e, OnCourse))
      case Some(q) => assert Meant(s, DoSensorStart(tUs, now), q) != Unmoved;
      case None =>
        Partition(s.orphans, tUs, s.events[e].maxSec);
        PruneWarns(s.warnings, s.orphans, tUs, s.events[e].maxSec);
        var kept := Kept(s.orphans, tUs, s.events[e].maxSec);
        assert (kept + [OrphanRun(s.orphanSeq + 1, tUs, now)])[..|kept|] == kept;
    }
  }

  /** `rest` is `runs` without the run of this id, in order. */
  ghost predicate WithoutRun(runs: seq<OrphanRun>, id: int, rest: seq<OrphanRun>) {
    Increasing(rest) && forall r :: r in rest <==> r in runs && r.id != id
  }

  lemma RunLeaves(s: State, id: int)
    requires Inv(s)
    ensures WithoutRun(s.orphans, id, Without(s.orphans, id))
    ensures (exists run :: run in s.orphans && run.id == id) <==> IndexOf(s.orphans, id) < |s.orphans|
  {
    RunWithId(s, id);
    WithoutIncreasing(s.orphans, id);
  }

  /** Which orphan runs are left by an adoption or a dismissal. */
  ghost predicate RunTaken(s: State, step: Step, r: Result)
    requires step.DoAdopt? || step.DoDismissRun?
  {
    var there := exists run :: run in s.orphans && run.id == step.orphanId;
    var ok := if step.DoAdopt? then SomeoneMeant(s, step) else there;
    && (r.reply == Ok <==> ok)
    && if !ok then r.s == s
       else r.s == s.(queue := r.s.queue, orphans := r.s.orphans) && WithoutRun(s.orphans, step.orphanId, r.s.orphans)
            && (step.DoDismissRun? ==> r.s.queue == s.queue)
  }

  lemma DismissTold(s: State, id: int)
    requires Inv(s)
    ensures RunTaken(s, DoDismissRun(id), DismissRun(s, id))
  {
    RunLeaves(s, id);
  }

  lemma AdoptMeantIff(s: State, id: int)
    requires Inv(s)
    ensures SomeoneMeant(s, DoAdopt(id)) <==>
            s.active.Some? && Waitlist(s.queue, s.active.value) != [] && IndexOf(s.orphans, id) < |s.orphans|
  {
    forall x | x in s.queue
      ensures Meant(s, DoAdopt(id), x) != Unmoved <==> IsHead(s, x) && IndexOf(s.orphans, id) < |s.orphans|
    {
      AdoptMeans(s, id, x);
    }
    if s.active.Some? { HeadScan(s); }
  }

  lemma AdoptTold(s: State, id: int)
    requires Inv(s)
    ensures RunTaken(s, DoAdopt(id), Adopt(s, id))
  {
    RunLeaves(s, id);
    AdoptMeantIff(s, id);
  }

  /** A confirm ends a pending finish and an undo-goal takes it back with its log. */
  ghost predicate PendingEnds(s: State, step: Step, r: Result)
    requires step.DoConfirm? || step.DoUndoGoal?
  {
    && (r.reply == Ok <==> step.DoConfirm? || step.q in s.pending)
    && if step.q !in s.pending then r.s == s
       else if step.DoConfirm? then r.s == s.(queue := r.s.queue, pending := s.pending - {step.q})
       else r.s == s.(pending := s.pending - {step.q}, logs := s.logs - {s.pending[step.q].logId})
  }

  lemma PendingEndsTold(s: State, step: Step)
    requires Inv(s) && (step.DoConfirm? || step.DoUndoGoal?)
    ensures PendingEnds(s, step, Apply(s, step))
  {
  }

  /** `out` is `ws` without its first warning about the log, if it has one. */
  ghost predicate WarningGone(ws: seq<Warning>, id: int, out: seq<Warning>) {
    exists i :: GoneAt(ws, id, out, i)
  }

  ghost predicate GoneAt(ws: seq<Warning>, id: int, out: seq<Warning>, i: int) {
    && 0 <= i <= |ws| && (forall j :: 0 <= j < i ==> !About(ws[j], id))
    && if i == |ws| then out == ws else About(ws[i], id) && out == ws[..i] + ws[i + 1..]
  }

  predicate About(w: Warning, id: int) {
    w.UnassignedLog? && w.logId == id
  }

  lemma {:induction false} WarningGoes(ws: seq<Warning>, id: int) returns (i: int)
    ensures GoneAt(ws, id, WithoutLogWarning(ws, id), i)
    decreases |ws|
  {
    i := 0;
    if ws != [] {
      if !About(ws[0], id) {
        var tail := ws[1..];
        var k := WarningGoes(tail, id);
        i := k + 1;
        assert forall j :: 0 < j < |ws| ==> ws[j] == tail[j - 1];
        if k < |tail| { assert [ws[0]] + (tail[..k] + tail[k + 1..]) == ws[..i] + ws[i + 1..]; }
        else { assert [ws[0]] + tail == ws; }
      } else {
        assert ws[1..] == ws[..0] + ws[1..];
      }
    }
  }

  /** What the log handlers do to the log they are about; no other log is touched. */
  ghost predicate LogEdited(s: State, step: Step, r: Result)
    requires step.DoLogUpdate? || step.DoLogDelete? || step.DoLogAssign?
  {
    var id := step.logId;
    && (r.reply == Ok <==> id in s.logs || step.DoLogDelete?)
    && r.s == s.(logs := r.s.logs, warnings := r.s.warnings)
    && (if step.DoLogUpdate? || r.reply != Ok then r.s.warnings == s.warnings else WarningGone(s.warnings, id, r.s.warnings))
    && r.s.logs.Keys == s.logs.Keys
    && (forall l :: l in s.logs && l != id ==> r.s.logs[l] == s.logs[l])
    && (id in s.logs ==> r.s.logs[id] == EditedLog(s.logs[id], step))
  }

  function EditedLog(l: LogRow, step: Step): (l': LogRow)
    requires step.DoLogUpdate? || step.DoLogDelete? || step.DoLogAssign?
  {
    match step
    case DoLogUpdate(_, driver, vehicle, rawMs, pt, mc) =>
      l.(driver := driver, vehicle := vehicle, rawMs := rawMs, pt := pt, mc := mc, edited := true)
    case DoLogAssign(_, driver, vehicle) => l.(driver := Some(driver), vehicle := Some(vehicle))
    case _ => l.(deleted := true)
  }

  lemma LogEditTold(s: State, step: Step)
    requires Inv(s) && (step.DoLogUpdate? || step.DoLogDelete? || step.DoLogAssign?)
    ensures LogEdited(s, step, Apply(s, step))
  {
    var i := WarningGoes(s.warnings, step.logId);
  }

  /** Events, settings, and logs entered by hand. */
  ghost predicate OfficeTold(s: State, step: Step, r: Result) {
    match step
    case DoEventCreate(ev) =>
      if s.active.Some? then r == Result(s, Conflict)
      else r.reply == Ok && r.s == s.(events := r.s.events, active := Some(s.nextEvent), nextEvent := s.nextEvent + 1)
           && s.nextEvent in r.s.events && r.s.events[s.nextEvent] == ev && forall e :: e in s.events ==> e in r.s.events && (e != s.nextEvent ==> r.s.events[e] == s.events[e])
    case DoEventClose(e) =>
      && (r.reply == Ok <==> s.active == Some(e) && forall x :: x in s.queue && s.queue[x].event == e ==> s.queue[x].status != OnCourse)
      && r.s == s.(queue := r.s.queue, active := if r.reply == Ok then None else s.active)
    case DoSettingsUpdate(ev) =>
      if s.active == None then r == Result(s, Conflict)
      else r.reply == Ok && r.s == s.(events := r.s.events) && s.active.value in r.s.events && r.s.events[s.active.value] == ev
           && forall e :: e in s.events ==> e in r.s.events && (e != s.active.value ==> r.s.events[e] == s.events[e])
    case DoLogCreate(driver, vehicle, rawMs, pt, mc, ts) =>
      if s.active == None then r == Result(s, Conflict)
      else r.reply == Ok && r.s == s.(logs := r.s.logs, nextLog := s.nextLog + 1)
           && r.s.logs == s.logs[s.nextLog := LogRow(s.active.value, Some(driver), Some(vehicle), rawMs, pt, mc, ts, Manual, false, false, ByHand)]
    case _ => true
  }

  lemma OfficeStepTold(s: State, step: Step)
    requires Inv(s) && (step.DoEventCreate? || step.DoEventClose? || step.DoSettingsUpdate? || step.DoLogCreate?)
    ensures OfficeTold(s, step, Apply(s, step))
  {
    if step.DoEventClose? {
      var ids := ListQueue(s.queue, step.e, OnCourse);
      forall x ensures x in ids <==> x in s.queue && s.queue[x].event == step.e && s.queue[x].status == OnCourse {
        assert x in ids <==> x in Selected(s.queue, step.e, OnCourse);
      }
      if ids != [] { var x := ids[0]; assert x in ids; }
    }
  }

  /** Requests about rows: granted exactly when some row is meant, and nothing but rows is touched. */
  ghost predicate RowsTold(s: State, step: Step, r: Result) {
    && RowsOnly(s, r.s)
    && (r.reply == Ok <==> SomeoneMeant(s, step))
    && (r.reply != Ok ==> r.s == s)
  }

  lemma LaunchesTold(s: State, step: Step)
    requires Inv(s) && (step.DoLaunch? || step.DoSelfLaunch?)
    ensures RowsTold(s, step, Apply(s, step))
  {
    if s.active.Some? {
      HeadScan(s);
      if step.DoSelfLaunch? { OnCourseScan(s, step.driver); }
      var w := Waitlist(s.queue, s.active.value);
      if Apply(s, step).reply == Ok { assert Meant(s, step, w[0]) != Unmoved; }
    }
  }

  lemma ManualStartTold(s: State, clientMs: Option<int>, now: int)
    requires Inv(s)
    ensures RowsTold(s, DoManualStart(clientMs, now), ManualStart(s, clientMs, now))
  {
    if s.active.Some? {
      ReadyScan(s);
      match FirstReady(s.queue, ListQueue(s.queue, s.active.value, OnCourse))
      case None =>
      case Some(q) => assert Meant(s, DoManualStart(clientMs, now), q) != Unmoved;
    }
  }

  lemma MyQueueCancelTold(s: State, driver: int)
    requires Inv(s)
    ensures RowsTold(s, DoMyQueueCancel(driver), MyQueueCancel(s, driver))
  {
    if s.active.Some? {
      WaitingScan(s, driver);
      var first := FirstOfDriver(s.queue, Waitlist(s.queue, s.active.value), driver);
      if first.Some? { assert Meant(s, DoMyQueueCancel(driver), first.value) != Unmoved; }
    }
  }

  lemma SelfLaunchUndoTold(s: State, driver: int)
    requires Inv(s)
    ensures RowsTold(s, DoSelfLaunchUndo(driver), SelfLaunchUndo(s, driver))
  {
    if s.active.Some? {
      OnCourseScan(s, driver);
      var first := FirstOfDriver(s.queue, ListQueue(s.queue, s.active.value, OnCourse), driver);
      if first.Some? && SelfLaunchUndo(s, driver).reply == Ok { assert Meant(s, DoSelfLaunchUndo(driver), first.value) != Unmoved; }
    }
  }

  lemma ByIdTold(s: State, step: Step)
    requires Inv(s) && (step.DoQueueCancel? || step.DoCancel? || step.DoUndoStart? || step.DoSetPt? || step.DoToggleMc?)
    ensures RowsTold(s, step, Apply(s, step))
  {
    if step.q in s.queue && Apply(s, step).reply == Ok { assert Meant(s, step, step.q) != Unmoved; }
  }

  /** Requests to enter or to move in the queue. */
  ghost predicate QueueTold(s: State, step: Step, r: Result)
    requires step.DoQueueAdd? || step.DoMyQueueAdd? || step.DoQueueReorder?
  {
    && RowsOnly(s, r.s)
    && (r.reply == Ok <==> if step.DoQueueReorder? then step.q in s.queue && s.queue[step.q].status == Waiting
                           else Enters(s, step, step.driver, step.vehicle))
    && (r.reply != Ok ==> r.s == s)
  }

  lemma QueueStepTold(s: State, step: Step)
    requires Inv(s) && (step.DoQueueAdd? || step.DoMyQueueAdd? || step.DoQueueReorder?)
    ensures QueueTold(s, step, Apply(s, step))
  {
    if !step.DoQueueReorder? && s.active.Some? {
      WaitingScan(s, step.driver);
      OnCourseScan(s, step.driver);
    }
  }

  /** What the step puts on record, and what it answers. */
  ghost predicate RecordsTold(s: State, step: Step, r: Result)
    requires s.active.Some? ==> s.active.value in s.events
  {
    match step
    case DoFinishById(_, _, _) => FinishTold(s, step, r)
    case DoFinishOldest(_, _) => FinishTold(s, step, r)
    case DoSensorGoal(_, _) => GoalTold(s, step, r)
    case DoSensorStart(_, _) => StartTold(s, step, r)
    case DoAdopt(_) => RunTaken(s, step, r)
    case DoDismissRun(_) => RunTaken(s, step, r)
    case DoConfirm(_) => PendingEnds(s, step, r)
    case DoUndoGoal(_) => PendingEnds(s, step, r)
    case DoLogUpdate(_, _, _, _, _, _) => LogEdited(s, step, r)
    case DoLogDelete(_) => LogEdited(s, step, r)
    case DoLogAssign(_, _, _) => LogEdited(s, step, r)
    case DoEventCreate(_) => OfficeTold(s, step, r)
    case DoEventClose(_) => OfficeTold(s, step, r)
    case DoSettingsUpdate(_) => OfficeTold(s, step, r)
    case DoLogCreate(_, _, _, _, _, _) => OfficeTold(s, step, r)
    case DoQueueAdd(_, _) => QueueTold(s, step, r)
    case DoMyQueueAdd(_, _) => QueueTold(s, step, r)
    case DoQueueReorder(_, _) => QueueTold(s, step, r)
    case _ => RowsTold(s, step, r)
  }

  lemma RowRecordsFollow(s: State, step: Step)
    requires Inv(s)
    requires step.DoLaunch? || step.DoSelfLaunch? || step.DoManualStart? || step.DoMyQueueCancel? || step.DoSelfLaunchUndo?
             || step.DoQueueCancel? || step.DoCancel? || step.DoUndoStart? || step.DoSetPt? || step.DoToggleMc?
    ensures RowsTold(s, step, Apply(s, step))
  {
    match step
    case DoLaunch(_, _) => LaunchesTold(s, step);
    case DoSelfLaunch(_) => LaunchesTold(s, step);
    case DoManualStart(c, now) => ManualStartTold(s, c, now);
    case DoMyQueueCancel(d) => MyQueueCancelTold(s, d);
    case DoSelfLaunchUndo(d) => SelfLaunchUndoTold(s, d);
    case _ => ByIdTold(s, step);
  }

  lemma OfficeRecordsFollow(s: State, step: Step)
    requires Inv(s)
    requires step.DoLogUpdate? || step.DoLogDelete? || step.DoLogAssign? || step.DoEventCreate? || step.DoEventClose?
             || step.DoSettingsUpdate? || step.DoLogCreate? || step.DoQueueAdd? || step.DoMyQueueAdd? || step.DoQueueReorder?
    ensures RecordsTold(s, step, Apply(s, step))
  {
    if step.DoLogUpdate? || step.DoLogDelete? || step.DoLogAssign? { LogEditTold(s, step); }
    else if step.DoQueueAdd? || step.DoMyQueueAdd? || step.DoQueueReorder? { QueueStepTold(s, step); }
    else { OfficeStepTold(s, step); }
  }

  /** Every step answers, and puts on record, exactly what it means. */
  lemma RecordsFollow(s: State, step: Step)
    requires Inv(s)
    ensures RecordsTold(s, step, Apply(s, step))
  {
    match step
    case DoFinishById(q, c, now) => FinishByIdTold(s, q, c, now);
    case DoFinishOldest(c, now) => FinishOldestTold(s, c, now);
    case DoSensorGoal(t, now) => SensorGoalTold(s, t, now);
    case DoSensorStart(t, now) => SensorStartTold(s, t, now);
    case DoAdopt(id) => AdoptTold(s, id);
    case DoDismissRun(id) => DismissTold(s, id);
    case DoConfirm(_) => PendingEndsTold(s, step);
    case DoUndoGoal(_) => PendingEndsTold(s, step);
    case _ =>
      if step.DoLogUpdate? || step.DoLogDelete? || step.DoLogAssign? || step.DoEventCreate? || step.DoEventClose?
         || step.DoSettingsUpdate? || step.DoLogCreate? || step.DoQueueAdd? || step.DoMyQueueAdd? || step.DoQueueReorder?
      { OfficeRecordsFollow(s, step); } else { RowRecordsFollow(s, step); }
  }
}
