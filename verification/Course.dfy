/** The course protocol (internal/web: course_manager.go, sensor.go, admin_course.go,
    launch.go, admin_queue.go, my.go, admin_events.go, admin_logs.go) over the tables of
    internal/store: what each handler, sensor trigger and timer firing does, as a whole,
    to the state. Store calls succeed here; OrphanFlow looks at failing ones. */
module Course {
  import opened Common
  import opened QueueTable
  import opened OrphanFifo
  import QueueOrder

  datatype Event = Event(sensorMode: bool, selfEntry: bool, maxSec: int)

  datatype Source = Sensor | Manual

  /** Which call wrote a log row. The program does not store this; it is kept as history. */
  datatype Origin = FromFinish(queueId: int) | FromOrphan(run: OrphanRun) | ByHand

  datatype LogRow = LogRow(event: int, driver: Option<int>, vehicle: Option<int>, rawMs: int, pt: int, mc: bool,
                           timestampMs: int, source: Source, edited: bool, deleted: bool, origin: Origin)

  datatype Pending = Pending(logId: int, finMs: int, untilMs: int)

  datatype Warning =
    | StartExpired(run: OrphanRun)
    | GoalBeforeStart(run: OrphanRun, goalUs: int)
    | UnassignedLog(run: OrphanRun, logId: int)

  /** `active` is the partial UNIQUE index on status = 'active': it holds at most one event. */
  datatype State = State(
    events: map<int, Event>, active: Option<int>, nextEvent: int,
    queue: Table, nextQueue: int,
    logs: map<int, LogRow>, nextLog: int,
    pending: map<int, Pending>,
    orphans: seq<OrphanRun>, orphanSeq: int,
    warnings: seq<Warning>)

  datatype Reply = Ok | Conflict | NotFound | Forbidden | NoTarget

  datatype Result = Result(s: State, reply: Reply)

  const GRACE_MS: int := 3000

  const Empty: State := State(map[], None, 1, map[], 1, map[], 1, map[], [], 0, [])

  predicate Terminal(st: Status) {
    st == Done || st == Canceled
  }

  // ---------------------------------------------------------------- scans

  /** The first row of the list that has no start stamp. */
  function FirstReady(t: Table, ids: seq<int>): (r: Option<int>)
    requires AllIn(t, ids)
  {
    if ids == [] then None
    else if t[ids[0]].tStart == None then Some(ids[0])
    else FirstReady(t, ids[1..])
  }

  /** The first row of the list that is started and has no pending finish. */
  function FirstRunning(t: Table, pending: map<int, Pending>, ids: seq<int>): (r: Option<int>)
    requires AllIn(t, ids)
  {
    if ids == [] then None
    else if t[ids[0]].tStart != None && ids[0] !in pending then Some(ids[0])
    else FirstRunning(t, pending, ids[1..])
  }

  function FirstOfDriver(t: Table, ids: seq<int>, driver: int): (r: Option<int>)
    requires AllIn(t, ids)
  {
    if ids == [] then None
    else if t[ids[0]].driver == driver then Some(ids[0])
    else FirstOfDriver(t, ids[1..], driver)
  }

  /** The timestamp of a manual tap: the client's, unless it is missing or more than 2 s off. */
  function CorrectedMs(clientMs: Option<int>, now: int): (ms: int)
    ensures -2000 <= now - ms <= 2000
  {
    match clientMs
    case None => now
    case Some(c) => if -2000 <= now - c <= 2000 then c else now
  }

  // ---------------------------------------------------------------- course manager

  function FinishCar(s: State, q: int, goalUs: int, source: Source, now: int): (r: Result)
    requires q in s.queue
  {
    var row := s.queue[q];
    if row.status != OnCourse || row.tStart == None || q in s.pending then Result(s, Conflict)
    else
      var rawMs := TruncDiv(goalUs - row.tStart.value, 1000);
      if rawMs < 0 then Result(s, Conflict)
      else
        var l := LogRow(row.event, Some(row.driver), Some(row.vehicle), rawMs, row.pt, row.mc, now, source, false, false, FromFinish(q));
        Result(s.(logs := s.logs[s.nextLog := l], nextLog := s.nextLog + 1,
                  pending := s.pending[q := Pending(s.nextLog, rawMs, now + GRACE_MS)]), Ok)
  }

  function Confirm(s: State, q: int): (r: Result) {
    if q !in s.pending then Result(s, Ok)
    else Result(s.(pending := s.pending - {q}, queue := WithStatus(s.queue, q, Done)), Ok)
  }

  function UndoGoal(s: State, q: int): (r: Result) {
    if q !in s.pending then Result(s, Conflict)
    else Result(s.(pending := s.pending - {q}, logs := s.logs - {s.pending[q].logId}), Ok)
  }

  /** SetStart(nil), then SetPT(-pt) and SetMC(false) where needed. */
  function Cleaned(t: Table, q: int): (t': Table) {
    WithMc(WithPt(WithStart(t, q, None), q, 0), q, false)
  }

  function UndoStart(s: State, q: int): (r: Result)
    requires q in s.queue
  {
    var row := s.queue[q];
    if row.status != OnCourse || q in s.pending then Result(s, Conflict)
    else
      var t := Cleaned(s.queue, q);
      if row.tStart != None && row.event in s.events && s.events[row.event].sensorMode
      then Result(s.(queue := t), Ok)
      else Result(s.(queue := QueueOrder.Returned(t, q)), Ok)
  }

  function Cancel(s: State, q: int): (r: Result)
    requires q in s.queue
  {
    if s.queue[q].status != OnCourse || q in s.pending then Result(s, Conflict)
    else Result(s.(queue := WithStatus(s.queue, q, Canceled)), Ok)
  }

  function Warned(ws: seq<Warning>, expired: seq<OrphanRun>): (out: seq<Warning>)
    ensures |out| == |ws| + |expired|
    ensures out[..|ws|] == ws
    ensures forall i :: 0 <= i < |expired| ==> out[|ws| + i] == StartExpired(expired[i])
  {
    if expired == [] then ws else Warned(ws, expired[..|expired| - 1]) + [StartExpired(expired[|expired| - 1])]
  }

  function SensorStart(s: State, tUs: int, now: int): (r: Result)
    requires s.active.Some? ==> s.active.value in s.events
  {
    if s.active == None then Result(s, NoTarget)
    else
      var e := s.active.value;
      match FirstReady(s.queue, ListQueue(s.queue, e, OnCourse))
      case Some(q) => Result(s.(queue := WithStart(s.queue, q, Some(tUs))), Ok)
      case None =>
        var max := s.events[e].maxSec;
        Result(s.(orphans := Kept(s.orphans, tUs, max) + [OrphanRun(s.orphanSeq + 1, tUs, now)],
                  orphanSeq := s.orphanSeq + 1,
                  warnings := Warned(s.warnings, Pruned(s.orphans, tUs, max))), Ok)
  }

  function SensorGoal(s: State, tUs: int, now: int): (r: Result)
    requires s.active.Some? ==> s.active.value in s.events
  {
    if s.active == None then Result(s, NoTarget)
    else
      var e := s.active.value;
      var ids := ListQueue(s.queue, e, OnCourse);
      match FirstRunning(s.queue, s.pending, ids)
      case Some(q) =>
        FirstRunningIsListed(s.queue, s.pending, ids);
        FinishCar(s, q, tUs, Sensor, now)
      case None => GoalForOrphan(s, e, tUs, now)
  }

  /** A goal with no running car: prune, pair with the oldest orphan run, write an unassigned log. */
  function GoalForOrphan(s: State, e: int, tUs: int, now: int): (r: Result)
    requires e in s.events
  {
    var max := s.events[e].maxSec;
    var kept := Kept(s.orphans, tUs, max);
    var warned := Warned(s.warnings, Pruned(s.orphans, tUs, max));
    if kept == [] then Result(s.(orphans := kept, warnings := warned), NoTarget)
    else
      Result(PairedWith(s.(orphans := kept[1..], warnings := warned), e, kept[0], tUs, now), Ok)
  }

  /** An unassigned log for the run, unless the goal is a millisecond or more before its start. */
  function PairedWith(s: State, e: int, run: OrphanRun, tUs: int, now: int): (s': State) {
    var rawMs := TruncDiv(tUs - run.tStart, 1000);
    if rawMs < 0 then s.(warnings := s.warnings + [GoalBeforeStart(run, tUs)])
    else
      var l := LogRow(e, None, None, rawMs, 0, false, now, Sensor, false, false, FromOrphan(run));
      s.(logs := s.logs[s.nextLog := l], nextLog := s.nextLog + 1, warnings := s.warnings + [UnassignedLog(run, s.nextLog)])
  }

  lemma {:induction false} FirstRunningIsListed(t: Table, pending: map<int, Pending>, ids: seq<int>)
    requires AllIn(t, ids)
    ensures FirstRunning(t, pending, ids).Some? ==> FirstRunning(t, pending, ids).value in ids
  {
    if ids != [] {
      FirstRunningIsListed(t, pending, ids[1..]);
      assert ids == [ids[0]] + ids[1..];
      var x := ids[0];
      assert x in ids;
    }
  }

  lemma {:induction false} FirstReadyIsListed(t: Table, ids: seq<int>)
    requires AllIn(t, ids)
    ensures FirstReady(t, ids).Some? ==> FirstReady(t, ids).value in ids && t[FirstReady(t, ids).value].tStart == None
  {
    if ids != [] {
      FirstReadyIsListed(t, ids[1..]);
      assert ids == [ids[0]] + ids[1..];
      var x := ids[0];
      assert x in ids;
    }
  }

  lemma {:induction false} FirstOfDriverIsListed(t: Table, ids: seq<int>, driver: int)
    requires AllIn(t, ids)
    ensures FirstOfDriver(t, ids, driver).Some? ==> FirstOfDriver(t, ids, driver).value in ids
  {
    if ids != [] {
      FirstOfDriverIsListed(t, ids[1..], driver);
      assert ids == [ids[0]] + ids[1..];
      var x := ids[0];
      assert x in ids;
    }
  }

  // ---------------------------------------------------------------- course handlers

  /** ClaimQueueRow(head, waiting, on_course) and SetStart. */
  function Launched(t: Table, q: int, tStart: Option<int>): (t': Table) {
    WithStart(WithStatus(t, q, OnCourse), q, tStart)
  }

  function Launch(s: State, clientMs: Option<int>, now: int): (r: Result)
    requires s.active.Some? ==> s.active.value in s.events
  {
    if s.active == None then Result(s, Conflict)
    else
      var e := s.active.value;
      var w := Waitlist(s.queue, e);
      if w == [] then Result(s, Conflict)
      else
        var start := if s.events[e].sensorMode then None else Some(CorrectedMs(clientMs, now) * 1000);
        Result(s.(queue := Launched(s.queue, w[0], start)), Ok)
  }

  function SelfLaunch(s: State, driver: int): (r: Result)
    requires s.active.Some? ==> s.active.value in s.events
  {
    if s.active == None then Result(s, Conflict)
    else
      var e := s.active.value;
      var w := Waitlist(s.queue, e);
      if !s.events[e].sensorMode then Result(s, Conflict)
      else if FirstOfDriver(s.queue, ListQueue(s.queue, e, OnCourse), driver) != None then Result(s, Conflict)
      else if w == [] || s.queue[w[0]].driver != driver then Result(s, Conflict)
      else Result(s.(queue := Launched(s.queue, w[0], None)), Ok)
  }

  function SelfLaunchUndo(s: State, driver: int): (r: Result) {
    if s.active == None then Result(s, Conflict)
    else
      var ids := ListQueue(s.queue, s.active.value, OnCourse);
      match FirstOfDriver(s.queue, ids, driver)
      case None => Result(s, Conflict)
      case Some(q) =>
        FirstOfDriverIsListed(s.queue, ids, driver);
        if s.queue[q].tStart != None then Result(s, Conflict) else UndoStart(s, q)
  }

  function ManualStart(s: State, clientMs: Option<int>, now: int): (r: Result) {
    if s.active == None then Result(s, Conflict)
    else
      match FirstReady(s.queue, ListQueue(s.queue, s.active.value, OnCourse))
      case None => Result(s, Conflict)
      case Some(q) => Result(s.(queue := WithStart(s.queue, q, Some(CorrectedMs(clientMs, now) * 1000))), Ok)
  }

  function FinishOldest(s: State, clientMs: Option<int>, now: int): (r: Result) {
    if s.active == None then Result(s, Conflict)
    else
      var ids := ListQueue(s.queue, s.active.value, OnCourse);
      match FirstRunning(s.queue, s.pending, ids)
      case None => Result(s, Conflict)
      case Some(q) =>
        FirstRunningIsListed(s.queue, s.pending, ids);
        FinishCar(s, q, CorrectedMs(clientMs, now) * 1000, Manual, now)
  }

  function FinishById(s: State, q: int, clientMs: Option<int>, now: int): (r: Result) {
    if q !in s.queue then Result(s, NotFound) else FinishCar(s, q, CorrectedMs(clientMs, now) * 1000, Manual, now)
  }

  function CancelById(s: State, q: int): (r: Result) {
    if q !in s.queue then Result(s, NotFound) else Cancel(s, q)
  }

  function UndoStartById(s: State, q: int): (r: Result) {
    if q !in s.queue then Result(s, NotFound) else UndoStart(s, q)
  }

  function Adopt(s: State, orphanId: int): (r: Result) {
    if s.active == None then Result(s, Conflict)
    else
      var w := Waitlist(s.queue, s.active.value);
      var i := IndexOf(s.orphans, orphanId);
      if w == [] || i == |s.orphans| then Result(s, Conflict)
      else Result(s.(queue := Launched(s.queue, w[0], Some(s.orphans[i].tStart)),
                     orphans := Without(s.orphans, orphanId)), Ok)
  }

  function DismissRun(s: State, orphanId: int): (r: Result) {
    if IndexOf(s.orphans, orphanId) == |s.orphans| then Result(s, Conflict)
    else Result(s.(orphans := Without(s.orphans, orphanId)), Ok)
  }

  function SetPt(s: State, q: int, delta: int): (r: Result) {
    if q !in s.queue then Result(s, NotFound)
    else if s.queue[q].status != OnCourse || s.queue[q].pt + delta < 0 then Result(s, Conflict)
    else Result(s.(queue := WithPt(s.queue, q, s.queue[q].pt + delta)), Ok)
  }

  function ToggleMc(s: State, q: int): (r: Result) {
    if q !in s.queue then Result(s, NotFound)
    else if s.queue[q].status != OnCourse then Result(s, Conflict)
    else Result(s.(queue := WithMc(s.queue, q, !s.queue[q].mc)), Ok)
  }

  // ---------------------------------------------------------------- queue handlers

  function QueueAdd(s: State, driver: int, vehicle: int): (r: Result) {
    if s.active == None || AlreadyWaiting(s.queue, s.active.value, driver, vehicle) then Result(s, Conflict)
    else Result(s.(queue := Enqueued(s.queue, s.nextQueue, s.active.value, driver, vehicle), nextQueue := s.nextQueue + 1), Ok)
  }

  function MyQueueAdd(s: State, driver: int, vehicle: int): (r: Result)
    requires s.active.Some? ==> s.active.value in s.events
  {
    if s.active == None then Result(s, Conflict)
    else
      var e := s.active.value;
      if !s.events[e].selfEntry then Result(s, Forbidden)
      else if FirstOfDriver(s.queue, Waitlist(s.queue, e), driver) != None then Result(s, Conflict)
      else if FirstOfDriver(s.queue, ListQueue(s.queue, e, OnCourse), driver) != None then Result(s, Conflict)
      else QueueAdd(s, driver, vehicle)
  }

  function MyQueueCancel(s: State, driver: int): (r: Result) {
    if s.active == None then Result(s, NotFound)
    else
      match FirstOfDriver(s.queue, Waitlist(s.queue, s.active.value), driver)
      case None => Result(s, NotFound)
      case Some(q) => Result(s.(queue := WithStatus(s.queue, q, Canceled)), Ok)
  }

  function QueueCancel(s: State, q: int): (r: Result) {
    if q !in s.queue then Result(s, NotFound)
    else if s.queue[q].status != Waiting then Result(s, Conflict)
    else Result(s.(queue := WithStatus(s.queue, q, Canceled)), Ok)
  }

  function QueueReorder(s: State, q: int, p: real): (r: Result) {
    if q !in s.queue then Result(s, NotFound)
    else if s.queue[q].status != Waiting then Result(s, Conflict)
    else Result(s.(queue := Reordered(s.queue, q, p)), Ok)
  }

  // ---------------------------------------------------------------- events and logs

  function EventCreate(s: State, ev: Event): (r: Result) {
    if s.active.Some? then Result(s, Conflict)
    else Result(s.(events := s.events[s.nextEvent := ev], active := Some(s.nextEvent), nextEvent := s.nextEvent + 1), Ok)
  }

  /** The waiting rows are canceled before the event is found not to be active. */
  function EventClose(s: State, e: int): (r: Result) {
    if ListQueue(s.queue, e, OnCourse) != [] then Result(s, Conflict)
    else
      var swept := s.(queue := WaitingCanceled(s.queue, e));
      if s.active != Some(e) then Result(swept, Conflict)
      else Result(swept.(active := None), Ok)
  }

  function SettingsUpdate(s: State, ev: Event): (r: Result) {
    if s.active == None then Result(s, Conflict)
    else Result(s.(events := s.events[s.active.value := ev]), Ok)
  }

  function LogCreate(s: State, driver: int, vehicle: int, rawMs: int, pt: int, mc: bool, ts: int): (r: Result) {
    if s.active == None then Result(s, Conflict)
    else
      var l := LogRow(s.active.value, Some(driver), Some(vehicle), rawMs, pt, mc, ts, Manual, false, false, ByHand);
      Result(s.(logs := s.logs[s.nextLog := l], nextLog := s.nextLog + 1), Ok)
  }

  /** orphanTracker.removeByLogID: the first warning about this log goes. */
  function WithoutLogWarning(ws: seq<Warning>, logId: int): (out: seq<Warning>) {
    if ws == [] then []
    else if ws[0].UnassignedLog? && ws[0].logId == logId then ws[1..]
    else [ws[0]] + WithoutLogWarning(ws[1..], logId)
  }

  function LogUpdate(s: State, id: int, driver: Option<int>, vehicle: Option<int>, rawMs: int, pt: int, mc: bool): (r: Result) {
    if id !in s.logs then Result(s, NotFound)
    else
      var l := s.logs[id].(driver := driver, vehicle := vehicle, rawMs := rawMs, pt := pt, mc := mc, edited := true);
      Result(s.(logs := s.logs[id := l]), Ok)
  }

  function LogDelete(s: State, id: int): (r: Result) {
    var logs := if id in s.logs then s.logs[id := s.logs[id].(deleted := true)] else s.logs;
    Result(s.(logs := logs, warnings := WithoutLogWarning(s.warnings, id)), Ok)
  }

  function LogAssign(s: State, id: int, driver: int, vehicle: int): (r: Result) {
    if id !in s.logs then Result(s, NotFound)
    else
      var l := s.logs[id].(driver := Some(driver), vehicle := Some(vehicle));
      Result(s.(logs := s.logs[id := l], warnings := WithoutLogWarning(s.warnings, id)), Ok)
  }

  // ---------------------------------------------------------------- runs

  datatype Step =
    | DoQueueAdd(driver: int, vehicle: int)
    | DoMyQueueAdd(driver: int, vehicle: int)
    | DoMyQueueCancel(driver: int)
    | DoQueueCancel(q: int)
    | DoQueueReorder(q: int, p: real)
    | DoLaunch(clientMs: Option<int>, now: int)
    | DoSelfLaunch(driver: int)
    | DoSelfLaunchUndo(driver: int)
    | DoManualStart(clientMs: Option<int>, now: int)
    | DoFinishOldest(clientMs: Option<int>, now: int)
    | DoFinishById(q: int, clientMs: Option<int>, now: int)
    | DoCancel(q: int)
    | DoUndoStart(q: int)
    | DoUndoGoal(q: int)
    | DoConfirm(q: int)  // the grace timer; a stale one may fire for any row at any time
    | DoSetPt(q: int, delta: int)
    | DoToggleMc(q: int)
    | DoSensorStart(tUs: int, now: int)
    | DoSensorGoal(tUs: int, now: int)
    | DoAdopt(orphanId: int)
    | DoDismissRun(orphanId: int)
    | DoEventCreate(ev: Event)
    | DoEventClose(e: int)
    | DoSettingsUpdate(ev: Event)
    | DoLogCreate(driver: int, vehicle: int, rawMs: int, pt: int, mc: bool, ts: int)
    | DoLogUpdate(logId: int, newDriver: Option<int>, newVehicle: Option<int>, rawMs: int, pt: int, mc: bool)
    | DoLogDelete(logId: int)
    | DoLogAssign(logId: int, driver: int, vehicle: int)

  function Apply(s: State, step: Step): (r: Result)
    requires s.active.Some? ==> s.active.value in s.events
  {
    match step
    case DoQueueAdd(d, v) => QueueAdd(s, d, v)
    case DoMyQueueAdd(d, v) => MyQueueAdd(s, d, v)
    case DoMyQueueCancel(d) => MyQueueCancel(s, d)
    case DoQueueCancel(q) => QueueCancel(s, q)
    case DoQueueReorder(q, p) => QueueReorder(s, q, p)
    case DoLaunch(c, now) => Launch(s, c, now)
    case DoSelfLaunch(d) => SelfLaunch(s, d)
    case DoSelfLaunchUndo(d) => SelfLaunchUndo(s, d)
    case DoManualStart(c, now) => ManualStart(s, c, now)
    case DoFinishOldest(c, now) => FinishOldest(s, c, now)
    case DoFinishById(q, c, now) => FinishById(s, q, c, now)
    case DoCancel(q) => CancelById(s, q)
    case DoUndoStart(q) => UndoStartById(s, q)
    case DoUndoGoal(q) => UndoGoal(s, q)
    case DoConfirm(q) => Confirm(s, q)
    case DoSetPt(q, delta) => SetPt(s, q, delta)
    case DoToggleMc(q) => ToggleMc(s, q)
    case DoSensorStart(t, now) => SensorStart(s, t, now)
    case DoSensorGoal(t, now) => SensorGoal(s, t, now)
    case DoAdopt(id) => Adopt(s, id)
    case DoDismissRun(id) => DismissRun(s, id)
    case DoEventCreate(ev) => EventCreate(s, ev)
    case DoEventClose(e) => EventClose(s, e)
    case DoSettingsUpdate(ev) => SettingsUpdate(s, ev)
    case DoLogCreate(d, v, raw, pt, mc, ts) => LogCreate(s, d, v, raw, pt, mc, ts)
    case DoLogUpdate(id, d, v, raw, pt, mc) => LogUpdate(s, id, d, v, raw, pt, mc)
    case DoLogDelete(id) => LogDelete(s, id)
    case DoLogAssign(id, d, v) => LogAssign(s, id, d, v)
  }
}
