/** Where each start signal ends up when the store calls of launching, stamping and adopting
    interleave (internal/web/sensor.go, internal/web/admin_course.go, internal/web/launch.go). The
    orphan runs are those of OrphanFlow; here the rows decide what its store calls answer. */
module OrphanStarts {
  import opened Common
  import F = OrphanFlow
  import O = OrphanFifo

  /** What wrote a row's start: a signal, an adopted orphan run, or a launch by hand. */
  datatype Stamp = BySignal(no: nat) | ByRun(id: int) | ByLaunch

  datatype Where = Waiting | OnCourse | Gone

  datatype Row = Row(at: Where, start: Option<Stamp>)

  /** Where a request is that is not in OrphanFlow's hands, or what it does there beside that. */
  datatype Task =
    | Trying(no: nat, candidates: seq<int>, tUs: int, atMs: int, maxSec: int)
    | Launching(row: int, manual: bool)
    | RollingBack(row: int)
    | GivingBack

  /** What the request of a start signal came to. */
  datatype Fate = InHand | OnRow(row: int) | AsRun(id: int) | Refused

  /** `fates` is history: one entry for each start signal, in the order they came. */
  datatype State = State(flow: F.State, rows: map<int, Row>, tasks: map<int, Task>, fates: seq<Fate>)

  const Initial: State := State(F.Initial, map[], map[], [])

  /** Each step is one locked section or one store call; `works` says whether the call gets through. */
  datatype Step =
    | Join(row: int)
    | Leave(row: int)
    | StartSignal(tid: int, candidates: seq<int>, tUs: int, atMs: int, maxSec: int)
    | TryNext(tid: int, works: bool)
    | QueueRun(tid: int)
    | Tap(row: int, works: bool)
    | LaunchClaim(tid: int, row: int, manual: bool, works: bool)
    | LaunchStamp(tid: int, works: bool)
    | Flow(step: F.Step)
    | AdoptClaim(tid: int, works: bool)
    | AdoptStamp(tid: int, works: bool)
    | Rollback(tid: int, works: bool)
    | GiveBack(tid: int)

  // ---------------------------------------------------------------- steps

  predicate Ready(s: State, row: int) {
    row in s.rows && s.rows[row] == Row(OnCourse, None)
  }

  /** The on_course rows without a start, oldest first, as listed at this moment. */
  ghost predicate IsSnapshot(s: State, candidates: seq<int>) {
    && (forall q :: q in candidates <==> Ready(s, q))
    && forall i, j :: 0 <= i < j < |candidates| ==> candidates[i] < candidates[j]
  }

  predicate IsAt(s: State, row: int, at: Where) {
    row in s.rows && s.rows[row].at == at
  }

  function Moved(s: State, row: int, at: Where): (s': State)
    requires row in s.rows
  {
    s.(rows := s.rows[row := s.rows[row].(at := at)])
  }

  /** SetStart: whatever the start was. */
  function Written(s: State, row: int, start: Option<Stamp>): (s': State) {
    if row !in s.rows then s else s.(rows := s.rows[row := s.rows[row].(start := start)])
  }

  function Ended(s: State, tid: int): (s': State) {
    s.(tasks := s.tasks - {tid})
  }

  function Fated(s: State, no: nat, fate: Fate): (s': State)
    requires no < |s.fates|
  {
    s.(fates := s.fates[no := fate])
  }

  /** SetStartIfUnset for the first candidate, and on to the next one if it lost the race. */
  function OnTry(s: State, tid: int, th: Task, works: bool): (s': State)
    requires th.Trying? && th.candidates != [] && th.no < |s.fates|
  {
    var q := th.candidates[0];
    if !works then Ended(Fated(s, th.no, Refused), tid)
    else if Ready(s, q) then Ended(Fated(Written(s, q, Some(BySignal(th.no))), th.no, OnRow(q)), tid)
    else s.(tasks := s.tasks[tid := th.(candidates := th.candidates[1..])])
  }

  function OnQueueRun(s: State, tid: int, th: Task): (s': State)
    requires th.Trying? && th.no < |s.fates|
  {
    var flow := F.Apply(s.flow, F.StartTrigger(tid, th.tUs, th.atMs, th.maxSec));
    Ended(Fated(s.(flow := flow), th.no, AsRun(flow.orphanSeq)), tid)
  }

  /** The manual start: SetStartIfUnset on one row, refused if it lost the race. */
  function OnTap(s: State, row: int, works: bool): (s': State) {
    var no := |s.fates|;
    if works && Ready(s, row) then Written(s, row, Some(BySignal(no))).(fates := s.fates + [OnRow(row)])
    else s.(fates := s.fates + [Refused])
  }

  function OnLaunchStamp(s: State, tid: int, th: Task, works: bool): (s': State)
    requires th.Launching?
  {
    Ended(if works then Written(s, th.row, if th.manual then Some(ByLaunch) else None) else s, tid)
  }

  /** ClaimQueueRow(waiting, on_course) with the run in hand. */
  function OnAdoptClaim(s: State, tid: int, row: int, works: bool): (s': State) {
    if !works then s.(flow := F.Apply(s.flow, F.AdoptClaim(tid, F.Failed)))
    else if !IsAt(s, row, Waiting) then s.(flow := F.Apply(s.flow, F.AdoptClaim(tid, F.Lost)))
    else Moved(s, row, OnCourse).(flow := F.Apply(s.flow, F.AdoptClaim(tid, F.Succeeded)))
  }

  function OnAdoptStamp(s: State, tid: int, th: F.Thread, works: bool): (s': State)
    requires th.AdoptClaimed?
  {
    if !works then s.(tasks := s.tasks[tid := RollingBack(th.row)])
    else Written(s, th.row, Some(ByRun(th.run.id))).(flow := F.Apply(s.flow, F.AdoptStamp(tid, F.Succeeded)))
  }

  /** ClaimQueueRow(on_course, waiting), for what it is worth. */
  function OnRollback(s: State, tid: int, row: int, works: bool): (s': State) {
    (if works && IsAt(s, row, OnCourse) then Moved(s, row, Waiting) else s).(tasks := s.tasks[tid := GivingBack])
  }

  /** Those steps of OrphanFlow that touch no row. */
  predicate TouchesNoRow(step: F.Step) {
    step.GoalTrigger? || step.Report? || step.Pair? || step.AdoptTake? || step.Dismiss?
  }

  predicate Idle(s: State, tid: int) {
    tid !in s.tasks && tid !in s.flow.threads
  }

  /** A step that does not fit where its request is does not happen. */
  ghost function Apply(s: State, step: Step): (s': State) {
    match step
    case Join(row) => if row in s.rows then s else s.(rows := s.rows[row := Row(Waiting, None)])
    case Leave(row) => if IsAt(s, row, OnCourse) then Moved(s, row, Gone) else s
    case StartSignal(tid, candidates, tUs, atMs, maxSec) =>
      if !Idle(s, tid) || !IsSnapshot(s, candidates) then s
      else s.(tasks := s.tasks[tid := Trying(|s.fates|, candidates, tUs, atMs, maxSec)], fates := s.fates + [InHand])
    case TryNext(tid, works) =>
      if tid in s.tasks && s.tasks[tid].Trying? && s.tasks[tid].candidates != [] && s.tasks[tid].no < |s.fates|
      then OnTry(s, tid, s.tasks[tid], works) else s
    case QueueRun(tid) =>
      if tid in s.tasks && s.tasks[tid].Trying? && s.tasks[tid].candidates == [] && s.tasks[tid].no < |s.fates|
      then OnQueueRun(s, tid, s.tasks[tid]) else s
    case Tap(row, works) => OnTap(s, row, works)
    case LaunchClaim(tid, row, manual, works) =>
      if Idle(s, tid) && works && IsAt(s, row, Waiting) then Moved(s, row, OnCourse).(tasks := s.tasks[tid := Launching(row, manual)])
      else s
    case LaunchStamp(tid, works) =>
      if tid in s.tasks && s.tasks[tid].Launching? then OnLaunchStamp(s, tid, s.tasks[tid], works) else s
    case Flow(step) => if TouchesNoRow(step) && step.tid !in s.tasks then s.(flow := F.Apply(s.flow, step)) else s
    case AdoptClaim(tid, works) =>
      if tid !in s.tasks && tid in s.flow.threads && s.flow.threads[tid].AdoptTaken?
      then OnAdoptClaim(s, tid, s.flow.threads[tid].row, works) else s
    case AdoptStamp(tid, works) =>
      if tid !in s.tasks && tid in s.flow.threads && s.flow.threads[tid].AdoptClaimed?
      then OnAdoptStamp(s, tid, s.flow.threads[tid], works) else s
    case Rollback(tid, works) =>
      if tid in s.tasks && s.tasks[tid].RollingBack? then OnRollback(s, tid, s.tasks[tid].row, works) else s
    case GiveBack(tid) =>
      if tid in s.tasks && s.tasks[tid].GivingBack?
      then Ended(s.(flow := F.Apply(s.flow, F.AdoptStamp(tid, F.Failed))), tid) else s
  }

  ghost function Run(s: State, steps: seq<Step>): (s': State)
    decreases |steps|
  {
    if steps == [] then s else Run(Apply(s, steps[0]), steps[1..])
  }

  // ---------------------------------------------------------------- who may write which row

  /** The row whose claim an adoption of OrphanFlow holds. */
  function Claiming(f: F.State, tid: int): (row: Option<int>) {
    if tid in f.threads && f.threads[tid].AdoptClaimed? then Some(f.threads[tid].row) else None
  }

  /** The row this request has claimed and not yet stamped or given back. */
  function Claim(s: State, tid: int): (row: Option<int>) {
    if tid !in s.tasks then Claiming(s.flow, tid)
    else match s.tasks[tid]
      case Launching(row, _) => Some(row)
      case RollingBack(row) => Some(row)
      case _ => None
  }

  /** A row is claimed by at most one request, and is then not waiting. */
  ghost predicate ClaimsOk(s: State) {
    && (forall tid :: Claim(s, tid).Some? ==> Claim(s, tid).value in s.rows && s.rows[Claim(s, tid).value].at != Waiting)
    && (forall t, u :: Claim(s, t).Some? && Claim(s, t) == Claim(s, u) ==> t == u)
  }

  /** The start that a signal wrote is recorded as its fate; a start written by a run or a launch is
      on a row that nobody can claim any more. */
  ghost predicate StampOk(s: State, q: int)
    requires q in s.rows
  {
    match s.rows[q].start
    case None => true
    case Some(BySignal(no)) => no < |s.fates| && s.fates[no] == OnRow(q)
    case Some(_) => s.rows[q].at != Waiting && forall tid :: Claim(s, tid) != Some(q)
  }

  ghost predicate StampsOk(s: State) {
    forall q :: q in s.rows ==> StampOk(s, q)
  }

  ghost predicate TaskOk(s: State, tid: int)
    requires tid in s.tasks
  {
    match s.tasks[tid]
    case Trying(no, _, _, _, _) => no < |s.fates| && s.fates[no] == InHand && tid !in s.flow.threads
    case Launching(_, _) => tid !in s.flow.threads
    case RollingBack(row) => Claiming(s.flow, tid) == Some(row)
    case GivingBack => Claiming(s.flow, tid).Some?
  }

  predicate TriesFor(s: State, tid: int, no: int) {
    tid in s.tasks && s.tasks[tid].Trying? && s.tasks[tid].no == no
  }

  ghost predicate TasksOk(s: State) {
    && (forall tid :: tid in s.tasks ==> TaskOk(s, tid))
    && (forall t, u, no :: TriesFor(s, t, no) && TriesFor(s, u, no) ==> t == u)
  }

  ghost predicate FateOk(s: State, no: int)
    requires 0 <= no < |s.fates|
  {
    && (s.fates[no] == InHand ==> exists tid :: TriesFor(s, tid, no))
    && (s.fates[no].AsRun? ==> 1 <= s.fates[no].id <= s.flow.orphanSeq)
  }

  ghost predicate FatesOk(s: State) {
    && (forall no :: 0 <= no < |s.fates| ==> FateOk(s, no))
    && (forall m, n :: 0 <= m < n < |s.fates| && s.fates[m].AsRun? ==> s.fates[m] != s.fates[n])
  }

  /** An adopted run is the start of its row. */
  ghost predicate AdoptedOk(s: State) {
    forall i :: 0 <= i < |s.flow.adopted| ==>
      s.flow.adopted[i].1 in s.rows && s.rows[s.flow.adopted[i].1].start == Some(ByRun(s.flow.adopted[i].0.id))
  }

  ghost predicate FlowOk(f: F.State) {
    exists home :: F.Inv(f, home)
  }

  ghost predicate Inv(s: State) {
    FlowOk(s.flow) && ClaimsOk(s) && StampsOk(s) && TasksOk(s) && FatesOk(s) && AdoptedOk(s)
  }

  // ---------------------------------------------------------------- each step keeps that

  lemma FlowStaysOk(f: F.State, step: F.Step)
    requires FlowOk(f)
    ensures FlowOk(F.Apply(f, step))
  {
    var home :| F.Inv(f, home);
    var home' := F.StepKeeps(f, home, step);
  }

  lemma TouchingNoRow(f: F.State, step: F.Step)
    requires TouchesNoRow(step)
    ensures var f' := F.Apply(f, step);
            && f'.adopted == f.adopted && f'.orphanSeq == f.orphanSeq
            && (forall tid :: Claiming(f', tid) == Claiming(f, tid))
            && (forall tid :: tid != step.tid ==> (tid in f'.threads <==> tid in f.threads))
  {
  }

  lemma FlowKeeps(s: State, step: F.Step)
    requires Inv(s) && TouchesNoRow(step) && step.tid !in s.tasks
    ensures Inv(s.(flow := F.Apply(s.flow, step)))
  {
    var s' := s.(flow := F.Apply(s.flow, step));
    FlowStaysOk(s.flow, step);
    TouchingNoRow(s.flow, step);
    assert forall tid :: Claim(s', tid) == Claim(s, tid);
    forall q | q in s'.rows ensures StampOk(s', q) { assert StampOk(s, q); }
    forall tid | tid in s'.tasks ensures TaskOk(s', tid) { assert TaskOk(s, tid); }
    forall t, u, no | TriesFor(s', t, no) && TriesFor(s', u, no) ensures t == u { assert TriesFor(s, t, no) && TriesFor(s, u, no); }
    forall no | 0 <= no < |s'.fates| ensures FateOk(s', no) { FateStays(s, s', no); }
  }

  lemma FateStays(s: State, s': State, no: int)
    requires 0 <= no < |s.fates| && FateOk(s, no)
    requires no < |s'.fates| && s'.fates[no] == s.fates[no] && s'.flow.orphanSeq >= s.flow.orphanSeq
    requires forall tid :: TriesFor(s, tid, no) ==> TriesFor(s', tid, no)
    ensures FateOk(s', no)
  {
    if s.fates[no] == InHand { var tid :| TriesFor(s, tid, no); assert TriesFor(s', tid, no); }
  }

  lemma JoinKeeps(s: State, row: int)
    requires Inv(s) && row !in s.rows
    ensures Inv(s.(rows := s.rows[row := Row(Waiting, None)]))
  {
    SameTasks(s, s.(rows := s.rows[row := Row(Waiting, None)]));
  }

  /** The tasks, fates and orphan runs are as before, and no row that was there is written. */
  lemma SameTasks(s: State, s': State)
    requires Inv(s) && s'.tasks == s.tasks && s'.fates == s.fates && s'.flow == s.flow
    requires forall q :: q in s.rows ==> q in s'.rows && s'.rows[q].start == s.rows[q].start && (s'.rows[q].at == Waiting ==> s.rows[q].at == Waiting)
    requires forall q :: q in s'.rows && q !in s.rows ==> s'.rows[q].start == None
    ensures Inv(s')
  {
    assert forall tid :: Claim(s', tid) == Claim(s, tid);
    forall i | 0 <= i < |s'.flow.adopted| ensures var (run, q) := s'.flow.adopted[i]; q in s'.rows && s'.rows[q].start == Some(ByRun(run.id)) {
      assert s.flow.adopted[i].1 in s.rows;
    }
    forall q | q in s'.rows ensures StampOk(s', q) { if q in s.rows { assert StampOk(s, q); } }
    forall tid | tid in s'.tasks ensures TaskOk(s', tid) { assert TaskOk(s, tid); }
    forall t, u, no | TriesFor(s', t, no) && TriesFor(s', u, no) ensures t == u { assert TriesFor(s, t, no) && TriesFor(s, u, no); }
    forall no | 0 <= no < |s'.fates| ensures FateOk(s', no) { FateStays(s, s', no); }
  }

  lemma SignalKeeps(s: State, tid: int, th: Task)
    requires Inv(s) && Idle(s, tid) && th.Trying? && th.no == |s.fates|
    ensures Inv(s.(tasks := s.tasks[tid := th], fates := s.fates + [InHand]))
  {
    var s' := s.(tasks := s.tasks[tid := th], fates := s.fates + [InHand]);
    assert forall t :: Claim(s', t) == Claim(s, t);
    forall q | q in s'.rows ensures StampOk(s', q) { assert StampOk(s, q); }
    forall t | t in s'.tasks ensures TaskOk(s', t) { if t != tid { assert TaskOk(s, t); } }
    forall t, no | t != tid && TriesFor(s', t, no) ensures TriesFor(s, t, no) && no < |s.fates| { assert TaskOk(s, t); }
    assert TriesFor(s', tid, |s.fates|);
    forall no | 0 <= no < |s'.fates| ensures FateOk(s', no) { if no < |s.fates| { FateStays(s, s', no); } }
  }

  lemma OnlyTry(s: State, s': State, tid: int, t: int, k: int)
    requires TasksOk(s) && tid in s.tasks && s.tasks[tid].Trying?
    requires s'.tasks == s.tasks - {tid} && TriesFor(s', t, k)
    ensures TriesFor(s, t, k) && k != s.tasks[tid].no
  {
    assert TriesFor(s, t, k);
    assert TriesFor(s, tid, s.tasks[tid].no);
  }

  /** A request that is trying ends, and its signal has its fate. */
  lemma TryEnds(s: State, tid: int, fate: Fate, s': State)
    requires Inv(s) && tid in s.tasks && s.tasks[tid].Trying? && s.tasks[tid].no < |s.fates|
    requires s'.tasks == s.tasks - {tid} && s'.fates == s.fates[s.tasks[tid].no := fate] && s'.flow == s.flow
    requires fate != InHand && !fate.AsRun?
    ensures TasksOk(s') && FatesOk(s') && forall t :: Claim(s', t) == Claim(s, t)
  {
    var no := s.tasks[tid].no;
    assert TaskOk(s, tid) && TriesFor(s, tid, no);
    forall t, k | TriesFor(s', t, k) ensures TriesFor(s, t, k) && k != no { OnlyTry(s, s', tid, t, k); }
    forall t | t in s'.tasks ensures TaskOk(s', t) {
      assert TaskOk(s, t);
      if s'.tasks[t].Trying? { assert TriesFor(s', t, s'.tasks[t].no); }
    }
    forall k | 0 <= k < |s'.fates| ensures FateOk(s', k) { if k != no { FateStays(s, s', k); } }
  }

  lemma TryKeeps(s: State, tid: int, works: bool)
    requires Inv(s) && tid in s.tasks && s.tasks[tid].Trying? && s.tasks[tid].candidates != []
    requires s.tasks[tid].no < |s.fates|
    ensures Inv(OnTry(s, tid, s.tasks[tid], works))
  {
    var th := s.tasks[tid];
    var q, s' := th.candidates[0], OnTry(s, tid, th, works);
    assert TaskOk(s, tid);
    if !works || Ready(s, q) {
      TryEnds(s, tid, if works then OnRow(q) else Refused, s');
      forall r | r in s'.rows ensures StampOk(s', r) { assert StampOk(s, r); }
    } else {
      assert forall t, k :: TriesFor(s', t, k) <==> TriesFor(s, t, k);
      assert forall t :: Claim(s', t) == Claim(s, t);
      forall r | r in s'.rows ensures StampOk(s', r) { assert StampOk(s, r); }
      forall t | t in s'.tasks ensures TaskOk(s', t) { assert TaskOk(s, t); }
      forall k | 0 <= k < |s'.fates| ensures FateOk(s', k) { FateStays(s, s', k); }
    }
  }

  lemma QueueRunKeeps(s: State, tid: int)
    requires Inv(s) && tid in s.tasks && s.tasks[tid].Trying? && s.tasks[tid].no < |s.fates|
    ensures Inv(OnQueueRun(s, tid, s.tasks[tid]))
  {
    var th := s.tasks[tid];
    var s' := OnQueueRun(s, tid, th);
    assert TaskOk(s, tid) && TriesFor(s, tid, th.no);
    FlowStaysOk(s.flow, F.StartTrigger(tid, th.tUs, th.atMs, th.maxSec));
    assert s'.flow.orphanSeq == s.flow.orphanSeq + 1 && s'.flow.adopted == s.flow.adopted;
    assert forall t :: Claim(s', t) == Claim(s, t);
    forall r | r in s'.rows ensures StampOk(s', r) { assert StampOk(s, r); }
    forall t, k | TriesFor(s', t, k) ensures TriesFor(s, t, k) && k != th.no { OnlyTry(s, s', tid, t, k); }
    forall t | t in s'.tasks ensures TaskOk(s', t) {
      assert TaskOk(s, t);
      if s'.tasks[t].Trying? { assert TriesFor(s', t, s'.tasks[t].no); }
    }
    forall k | 0 <= k < |s.fates| && s.fates[k].AsRun? ensures s.fates[k].id < s'.flow.orphanSeq { assert FateOk(s, k); }
    forall k | 0 <= k < |s'.fates| ensures FateOk(s', k) {
      assert FateOk(s, k);
      FlowCounts(s.flow);
      if k != th.no { FateStays(s, s', k); }
    }
  }

  lemma FlowCounts(f: F.State)
    requires FlowOk(f)
    ensures f.orphanSeq == |f.queued|
  {
    var home :| F.Inv(f, home);
  }

  lemma TapKeeps(s: State, row: int, works: bool)
    requires Inv(s)
    ensures Inv(OnTap(s, row, works))
  {
    var s' := OnTap(s, row, works);
    assert forall t :: Claim(s', t) == Claim(s, t);
    forall r | r in s'.rows ensures StampOk(s', r) { assert StampOk(s, r); }
    forall t, k | TriesFor(s', t, k) ensures TriesFor(s, t, k) { assert TaskOk(s, t); }
    forall t | t in s'.tasks ensures TaskOk(s', t) { assert TaskOk(s, t); }
    forall k | 0 <= k < |s'.fates| ensures FateOk(s', k) { if k < |s.fates| { FateStays(s, s', k); } }
  }

  /** Nobody tries for another signal than before. */
  lemma TasksStayOk(s: State, s': State, tid: int)
    requires Inv(s) && s'.fates == s.fates && s'.flow.orphanSeq == s.flow.orphanSeq
    requires forall t :: t != tid ==> (t in s'.tasks <==> t in s.tasks) && (t in s.tasks ==> s'.tasks[t] == s.tasks[t])
    requires forall t :: t != tid ==> Claiming(s'.flow, t) == Claiming(s.flow, t) && (t in s'.flow.threads <==> t in s.flow.threads)
    requires !(tid in s.tasks && s.tasks[tid].Trying?) && !(tid in s'.tasks && s'.tasks[tid].Trying?)
    requires tid in s'.tasks ==> TaskOk(s', tid)
    ensures TasksOk(s') && FatesOk(s')
  {
    assert forall t, k :: TriesFor(s', t, k) <==> TriesFor(s, t, k);
    forall t | t in s'.tasks ensures TaskOk(s', t) { if t != tid { assert TaskOk(s, t); } }
    forall k | 0 <= k < |s'.fates| ensures FateOk(s', k) { FateStays(s, s', k); }
  }

  lemma LaunchClaimKeeps(s: State, tid: int, row: int, manual: bool)
    requires Inv(s) && Idle(s, tid) && IsAt(s, row, Waiting)
    ensures Inv(Moved(s, row, OnCourse).(tasks := s.tasks[tid := Launching(row, manual)]))
  {
    var s' := Moved(s, row, OnCourse).(tasks := s.tasks[tid := Launching(row, manual)]);
    assert forall t :: t != tid ==> Claim(s', t) == Claim(s, t);
    TasksStayOk(s, s', tid);
    forall r | r in s'.rows ensures StampOk(s', r) { assert StampOk(s, r); }
  }

  /** The one that has claimed a row writes its start and lets go of it. */
  lemma ClaimantStamps(s: State, tid: int, row: int, s': State)
    requires Inv(s) && Claim(s, tid) == Some(row)
    requires s'.rows == s.rows || s'.rows == Written(s, row, None).rows || s'.rows == Written(s, row, Some(ByLaunch)).rows
             || exists id :: s'.rows == Written(s, row, Some(ByRun(id))).rows
    requires s'.fates == s.fates
    requires forall t :: Claim(s', t) == if t == tid then None else Claim(s, t)
    ensures ClaimsOk(s') && StampsOk(s')
    ensures forall i :: 0 <= i < |s.flow.adopted| ==> s.flow.adopted[i].1 != row
    ensures forall q :: q in s.rows && q != row ==> q in s'.rows && s'.rows[q] == s.rows[q]
  {
    forall r | r in s'.rows ensures StampOk(s', r) { assert StampOk(s, r); }
    forall i | 0 <= i < |s.flow.adopted| ensures s.flow.adopted[i].1 != row { assert StampOk(s, s.flow.adopted[i].1); }
  }

  lemma LaunchStampKeeps(s: State, tid: int, works: bool)
    requires Inv(s) && tid in s.tasks && s.tasks[tid].Launching?
    ensures Inv(OnLaunchStamp(s, tid, s.tasks[tid], works))
  {
    var s' := OnLaunchStamp(s, tid, s.tasks[tid], works);
    assert TaskOk(s, tid);
    TasksStayOk(s, s', tid);
    ClaimantStamps(s, tid, s.tasks[tid].row, s');
  }

  /** What OrphanFlow does with the reply to a claim or a stamp. */
  lemma AdoptionReplies(f: F.State, tid: int, reply: F.StoreReply)
    requires tid in f.threads
    ensures f.threads[tid].AdoptTaken? ==>
              var f' := F.Apply(f, F.AdoptClaim(tid, reply));
              && f'.adopted == f.adopted && f'.orphanSeq == f.orphanSeq
              && Claiming(f', tid) == (if reply == F.Succeeded then Some(f.threads[tid].row) else None)
              && forall t :: t != tid ==> Claiming(f', t) == Claiming(f, t) && (t in f'.threads <==> t in f.threads)
    ensures f.threads[tid].AdoptClaimed? ==>
              var f' := F.Apply(f, F.AdoptStamp(tid, reply));
              && f'.adopted == (if reply == F.Succeeded then f.adopted + [(f.threads[tid].run, f.threads[tid].row)] else f.adopted)
              && f'.orphanSeq == f.orphanSeq && tid !in f'.threads
              && forall t :: t != tid ==> Claiming(f', t) == Claiming(f, t) && (t in f'.threads <==> t in f.threads)
  {
  }

  lemma AdoptClaimKeeps(s: State, tid: int, works: bool)
    requires Inv(s) && tid !in s.tasks && tid in s.flow.threads && s.flow.threads[tid].AdoptTaken?
    ensures Inv(OnAdoptClaim(s, tid, s.flow.threads[tid].row, works))
  {
    var row := s.flow.threads[tid].row;
    var s' := OnAdoptClaim(s, tid, row, works);
    var reply := if !works then F.Failed else if IsAt(s, row, Waiting) then F.Succeeded else F.Lost;
    AdoptionReplies(s.flow, tid, reply);
    FlowStaysOk(s.flow, F.AdoptClaim(tid, reply));
    assert s'.flow == F.Apply(s.flow, F.AdoptClaim(tid, reply));
    TasksStayOk(s, s', tid);
    assert forall t :: t != tid ==> Claim(s', t) == Claim(s, t);
    forall r | r in s'.rows ensures StampOk(s', r) { assert StampOk(s, r); }
  }

  lemma AdoptStampKeeps(s: State, tid: int, works: bool)
    requires Inv(s) && tid !in s.tasks && tid in s.flow.threads && s.flow.threads[tid].AdoptClaimed?
    ensures Inv(OnAdoptStamp(s, tid, s.flow.threads[tid], works))
  {
    var th := s.flow.threads[tid];
    var s' := OnAdoptStamp(s, tid, th, works);
    if works {
      AdoptionReplies(s.flow, tid, F.Succeeded);
      FlowStaysOk(s.flow, F.AdoptStamp(tid, F.Succeeded));
      TasksStayOk(s, s', tid);
      assert forall t :: Claim(s', t) == if t == tid then None else Claim(s, t);
      ClaimantStamps(s, tid, th.row, s');
    } else {
      TasksStayOk(s, s', tid);
      assert forall t :: Claim(s', t) == Claim(s, t);
      forall r | r in s'.rows ensures StampOk(s', r) { assert StampOk(s, r); }
    }
  }

  lemma RollbackKeeps(s: State, tid: int, works: bool)
    requires Inv(s) && tid in s.tasks && s.tasks[tid].RollingBack?
    ensures Inv(OnRollback(s, tid, s.tasks[tid].row, works))
  {
    var s' := OnRollback(s, tid, s.tasks[tid].row, works);
    assert TaskOk(s, tid);
    TasksStayOk(s, s', tid);
    assert forall t :: Claim(s', t) == if t == tid then None else Claim(s, t);
    forall t | t != tid ensures Claim(s, t) != Some(s.tasks[tid].row) { assert Claim(s, tid) == Some(s.tasks[tid].row); }
    forall r | r in s'.rows ensures StampOk(s', r) { assert StampOk(s, r) && Claim(s, tid) == Some(s.tasks[tid].row); }
  }

  lemma GiveBackKeeps(s: State, tid: int)
    requires Inv(s) && tid in s.tasks && s.tasks[tid].GivingBack?
    ensures Inv(Ended(s.(flow := F.Apply(s.flow, F.AdoptStamp(tid, F.Failed))), tid))
  {
    var s' := Ended(s.(flow := F.Apply(s.flow, F.AdoptStamp(tid, F.Failed))), tid);
    assert TaskOk(s, tid);
    AdoptionReplies(s.flow, tid, F.Failed);
    FlowStaysOk(s.flow, F.AdoptStamp(tid, F.Failed));
    TasksStayOk(s, s', tid);
    assert forall t :: Claim(s', t) == Claim(s, t);
    forall r | r in s'.rows ensures StampOk(s', r) { assert StampOk(s, r); }
  }

  lemma FlowStepKeeps(s: State, f: F.Step)
    requires Inv(s)
    ensures Inv(Apply(s, Flow(f)))
  {
    if TouchesNoRow(f) && f.tid !in s.tasks { FlowKeeps(s, f); }
  }

  lemma AdoptClaimStepKeeps(s: State, tid: int, works: bool)
    requires Inv(s)
    ensures Inv(Apply(s, AdoptClaim(tid, works)))
  {
    if tid !in s.tasks && tid in s.flow.threads && s.flow.threads[tid].AdoptTaken? { AdoptClaimKeeps(s, tid, works); }
  }

  lemma AdoptStampStepKeeps(s: State, tid: int, works: bool)
    requires Inv(s)
    ensures Inv(Apply(s, AdoptStamp(tid, works)))
  {
    if tid !in s.tasks && tid in s.flow.threads && s.flow.threads[tid].AdoptClaimed? { AdoptStampKeeps(s, tid, works); }
  }

  lemma RollbackStepKeeps(s: State, tid: int, works: bool)
    requires Inv(s)
    ensures Inv(Apply(s, Rollback(tid, works)))
  {
    if tid in s.tasks && s.tasks[tid].RollingBack? { RollbackKeeps(s, tid, works); }
  }

  lemma GiveBackStepKeeps(s: State, tid: int)
    requires Inv(s)
    ensures Inv(Apply(s, GiveBack(tid)))
  {
    var s' := Apply(s, GiveBack(tid));
    if tid in s.tasks && s.tasks[tid].GivingBack? {
      GiveBackKeeps(s, tid);
      assert s' == Ended(s.(flow := F.Apply(s.flow, F.AdoptStamp(tid, F.Failed))), tid);
    } else {
      assert s' == s;
    }
  }

  lemma SignalStepKeeps(s: State, step: Step)
    requires Inv(s) && (step.StartSignal? || step.TryNext? || step.QueueRun? || step.Tap?)
    ensures Inv(Apply(s, step))
  {
    match step
    case StartSignal(tid, candidates, tUs, atMs, maxSec) =>
      if Idle(s, tid) { SignalKeeps(s, tid, Trying(|s.fates|, candidates, tUs, atMs, maxSec)); }
    case TryNext(tid, works) =>
      if tid in s.tasks && s.tasks[tid].Trying? && s.tasks[tid].candidates != [] && s.tasks[tid].no < |s.fates| { TryKeeps(s, tid, works); }
    case QueueRun(tid) =>
      if tid in s.tasks && s.tasks[tid].Trying? && s.tasks[tid].no < |s.fates| { QueueRunKeeps(s, tid); }
    case Tap(row, works) => TapKeeps(s, row, works);
  }

  lemma RowStepKeeps(s: State, step: Step)
    requires Inv(s) && (step.Join? || step.Leave? || step.LaunchClaim? || step.LaunchStamp?)
    ensures Inv(Apply(s, step))
  {
    match step
    case Join(row) => if row !in s.rows { JoinKeeps(s, row); }
    case Leave(row) => if IsAt(s, row, OnCourse) { SameTasks(s, Moved(s, row, Gone)); }
    case LaunchClaim(tid, row, manual, _) => if Idle(s, tid) && IsAt(s, row, Waiting) { LaunchClaimKeeps(s, tid, row, manual); }
    case LaunchStamp(tid, works) => if tid in s.tasks && s.tasks[tid].Launching? { LaunchStampKeeps(s, tid, works); }
  }

  lemma StepKeeps(s: State, step: Step)
    requires Inv(s)
    ensures Inv(Apply(s, step))
  {
    match step
    case Flow(f) => FlowStepKeeps(s, f);
    case AdoptClaim(tid, works) => AdoptClaimStepKeeps(s, tid, works);
    case AdoptStamp(tid, works) => AdoptStampStepKeeps(s, tid, works);
    case Rollback(tid, works) => RollbackStepKeeps(s, tid, works);
    case GiveBack(tid) => GiveBackStepKeeps(s, tid);
    case Join(_) => RowStepKeeps(s, step);
    case Leave(_) => RowStepKeeps(s, step);
    case LaunchClaim(_, _, _, _) => RowStepKeeps(s, step);
    case LaunchStamp(_, _) => RowStepKeeps(s, step);
    case _ => SignalStepKeeps(s, step);
  }

  // ---------------------------------------------------------------- where a signal is

  /** Still tried by a request, the start of a row, an orphan run of this id, or answered with an
      error. */
  datatype Place = Tried(tid: int) | StartOf(row: int) | Queued(id: int) | Answered

  ghost predicate SignalAt(s: State, no: int, p: Place) {
    match p
    case Tried(tid) => TriesFor(s, tid, no)
    case StartOf(q) => q in s.rows && no >= 0 && s.rows[q].start == Some(BySignal(no))
    case Queued(id) => 0 <= no < |s.fates| && s.fates[no] == AsRun(id) && 1 <= id <= |s.flow.queued|
    case Answered => 0 <= no < |s.fates| && s.fates[no] == Refused
  }

  ghost predicate Somewhere(s: State, no: int) {
    exists p :: SignalAt(s, no, p)
  }

  /** The signal was a row's start and is so no more. */
  ghost predicate LostSignal(s: State, no: int) {
    && 0 <= no < |s.fates| && s.fates[no].OnRow?
    && !SignalAt(s, no, StartOf(s.fates[no].row))
  }

  ghost predicate NoneLost(s: State) {
    forall no :: !LostSignal(s, no)
  }

  lemma PlaceIsFate(s: State, no: int, p: Place)
    requires Inv(s) && SignalAt(s, no, p)
    ensures 0 <= no < |s.fates|
    ensures s.fates[no] == match p { case Tried(_) => InHand case StartOf(q) => OnRow(q) case Queued(id) => AsRun(id) case Answered => Refused }
  {
    match p
    case Tried(tid) => assert TaskOk(s, tid);
    case StartOf(q) => assert StampOk(s, q);
    case _ =>
  }

  /** A signal is in one place at most. */
  lemma OnePlaceAtMost(s: State, no: int, p: Place, p': Place)
    requires Inv(s) && SignalAt(s, no, p) && SignalAt(s, no, p')
    ensures p == p'
  {
    PlaceIsFate(s, no, p);
    PlaceIsFate(s, no, p');
  }

  lemma NowhereIsLost(s: State, no: int)
    requires Inv(s) && 0 <= no < |s.fates|
    ensures !Somewhere(s, no) <==> LostSignal(s, no)
  {
    assert FateOk(s, no);
    match s.fates[no]
    case InHand => var tid :| TriesFor(s, tid, no); assert SignalAt(s, no, Tried(tid));
    case OnRow(q) =>
      if Somewhere(s, no) { var p :| SignalAt(s, no, p); PlaceIsFate(s, no, p); }
      else { assert !SignalAt(s, no, StartOf(q)); }
    case AsRun(id) => FlowCounts(s.flow); assert SignalAt(s, no, Queued(id));
    case Refused => assert SignalAt(s, no, Answered);
  }

  // ---------------------------------------------------------------- one row, one signal

  predicate HasTask(s: State, tid: int, task: Task) {
    tid in s.tasks && s.tasks[tid] == task
  }

  /** The request of signal `no` is about to try this row. */
  predicate Tries(s: State, tid: int, no: int, q: int) {
    TriesFor(s, tid, no) && s.tasks[tid].candidates != [] && s.tasks[tid].candidates[0] == q
  }

  /** What a step does to a row: who comes first on a READY row starts it, a claim or a rollback moves
      it only from where it expects it, and a stamp of a launch or an adoption is written over whatever
      is there. */
  function RowNext(s: State, step: Step, q: int): (r: Row)
    requires q in s.rows
  {
    var r := s.rows[q];
    match step
    case Leave(x) => if x == q && r.at == OnCourse then r.(at := Gone) else r
    case TryNext(tid, works) =>
      if works && r == Row(OnCourse, None) && tid in s.tasks && s.tasks[tid].Trying? && Tries(s, tid, s.tasks[tid].no, q)
      then r.(start := Some(BySignal(s.tasks[tid].no))) else r
    case Tap(x, works) => if works && x == q && r == Row(OnCourse, None) then r.(start := Some(BySignal(|s.fates|))) else r
    case LaunchClaim(tid, x, _, works) => if works && x == q && r.at == Waiting && Idle(s, tid) then r.(at := OnCourse) else r
    case LaunchStamp(tid, works) =>
      if works && HasTask(s, tid, Launching(q, true)) then r.(start := Some(ByLaunch))
      else if works && HasTask(s, tid, Launching(q, false)) then r.(start := None)
      else r
    case AdoptClaim(tid, works) =>
      if works && r.at == Waiting && tid !in s.tasks && tid in s.flow.threads && s.flow.threads[tid].AdoptTaken? && s.flow.threads[tid].row == q
      then r.(at := OnCourse) else r
    case AdoptStamp(tid, works) =>
      if works && tid !in s.tasks && Claiming(s.flow, tid) == Some(q) then r.(start := Some(ByRun(s.flow.threads[tid].run.id))) else r
    case Rollback(tid, works) => if works && r.at == OnCourse && HasTask(s, tid, RollingBack(q)) then r.(at := Waiting) else r
    case _ => r
  }

  lemma RowsAreTold(s: State, step: Step, q: int)
    requires Inv(s) && q in s.rows
    ensures q in Apply(s, step).rows && Apply(s, step).rows[q] == RowNext(s, step, q)
  {
    if step.TryNext? && step.tid in s.tasks { assert TaskOk(s, step.tid); }
  }

  /** What a step makes of a signal: refused if its store call fails, a row's start if it comes first
      there, an orphan run once no row it was to try is left, and still in hand otherwise. */
  function FateNext(s: State, step: Step, no: int): (f: Fate)
    requires 0 <= no < |s.fates|
  {
    match step
    case TryNext(tid, works) =>
      if !TriesFor(s, tid, no) || s.tasks[tid].candidates == [] then s.fates[no]
      else if !works then Refused
      else if Ready(s, s.tasks[tid].candidates[0]) then OnRow(s.tasks[tid].candidates[0])
      else s.fates[no]
    case QueueRun(tid) => if TriesFor(s, tid, no) && s.tasks[tid].candidates == [] then AsRun(s.flow.orphanSeq + 1) else s.fates[no]
    case _ => s.fates[no]
  }

  lemma FatesAreTold(s: State, step: Step, no: int)
    requires Inv(s) && 0 <= no < |s.fates|
    ensures no < |Apply(s, step).fates| && Apply(s, step).fates[no] == FateNext(s, step, no)
  {
    if (step.TryNext? || step.QueueRun?) && step.tid in s.tasks { assert TaskOk(s, step.tid); }
  }

  /** A new signal: a trigger is to try the READY rows in turn, oldest first; a tap is a row's start if
      that row is READY, and refused otherwise. */
  lemma NewSignalsAreTold(s: State, step: Step)
    requires Inv(s)
    ensures var s' := Apply(s, step); var no := |s.fates|;
            match step
            case StartSignal(tid, candidates, tUs, atMs, maxSec) =>
              if Idle(s, tid) && IsSnapshot(s, candidates)
              then s'.fates == s.fates + [InHand] && HasTask(s', tid, Trying(no, candidates, tUs, atMs, maxSec))
              else s' == s
            case Tap(row, works) => s'.fates == s.fates + [if works && Ready(s, row) then OnRow(row) else Refused]
            case _ => |s'.fates| == no
  {
    if (step.TryNext? || step.QueueRun?) && step.tid in s.tasks { assert TaskOk(s, step.tid); }
  }

  // ---------------------------------------------------------------- what loses one

  /** SetStart, which writes unconditionally, comes upon a start that is already set. */
  ghost predicate OverStamps(s: State, step: Step) {
    match step
    case LaunchStamp(tid, works) =>
      works && tid in s.tasks && s.tasks[tid].Launching? && s.tasks[tid].row in s.rows && s.rows[s.tasks[tid].row].start.Some?
    case AdoptStamp(tid, works) =>
      works && tid !in s.tasks && Claiming(s.flow, tid).Some?
      && Claiming(s.flow, tid).value in s.rows && s.rows[Claiming(s.flow, tid).value].start.Some?
    case _ => false
  }

  ghost predicate NeverOverStamps(s: State, steps: seq<Step>)
    decreases |steps|
  {
    steps == [] || (!OverStamps(s, steps[0]) && NeverOverStamps(Apply(s, steps[0]), steps[1..]))
  }

  /** A signal that has become a row's start is not written again, so once lost it stays lost. */
  lemma LostStaysLost(s: State, step: Step, no: int)
    requires Inv(s) && LostSignal(s, no)
    ensures LostSignal(Apply(s, step), no)
  {
    var s' := Apply(s, step);
    if step.TryNext? && step.tid in s.tasks { assert TaskOk(s, step.tid); }
    if step.QueueRun? && step.tid in s.tasks { assert TaskOk(s, step.tid); }
  }

  lemma KeptUnlessOverStamped(s: State, step: Step, no: int)
    requires Inv(s) && NoneLost(s) && !OverStamps(s, step)
    ensures !LostSignal(Apply(s, step), no)
  {
    assert !LostSignal(s, no);
    if step.TryNext? && step.tid in s.tasks { assert TaskOk(s, step.tid); }
    if step.QueueRun? && step.tid in s.tasks { assert TaskOk(s, step.tid); }
  }

  /** What is stamped over is always a signal, never an adopted run or a launch by hand. */
  lemma OverStampingLoses(s: State, step: Step) returns (no: nat)
    requires Inv(s) && OverStamps(s, step)
    ensures LostSignal(Apply(s, step), no)
  {
    var row := if step.LaunchStamp? then s.tasks[step.tid].row else Claiming(s.flow, step.tid).value;
    assert Claim(s, step.tid) == Some(row);
    assert StampOk(s, row);
    no := s.rows[row].start.value.no;
  }

  lemma {:induction false} LostForGood(s: State, steps: seq<Step>, no: int)
    requires Inv(s) && LostSignal(s, no)
    ensures LostSignal(Run(s, steps), no)
    decreases |steps|
  {
    if steps != [] {
      StepKeeps(s, steps[0]);
      LostStaysLost(s, steps[0], no);
      LostForGood(Apply(s, steps[0]), steps[1..], no);
    }
  }

  lemma {:induction false} RunKeeps(s: State, steps: seq<Step>)
    requires Inv(s)
    ensures Inv(Run(s, steps))
    decreases |steps|
  {
    if steps != [] {
      StepKeeps(s, steps[0]);
      RunKeeps(Apply(s, steps[0]), steps[1..]);
    }
  }

  lemma {:induction false} LosesExactly(s: State, steps: seq<Step>)
    requires Inv(s) && NoneLost(s)
    ensures NoneLost(Run(s, steps)) <==> NeverOverStamps(s, steps)
    decreases |steps|
  {
    if steps != [] {
      var s' := Apply(s, steps[0]);
      StepKeeps(s, steps[0]);
      if OverStamps(s, steps[0]) {
        var no := OverStampingLoses(s, steps[0]);
        LostForGood(s', steps[1..], no);
      } else {
        forall no ensures !LostSignal(s', no) { KeptUnlessOverStamped(s, steps[0], no); }
        LosesExactly(s', steps[1..]);
      }
    }
  }

  lemma InitialOk()
    ensures Inv(Initial) && NoneLost(Initial)
  {
    F.InitialOk();
    assert forall tid :: Claim(Initial, tid) == None;
  }

  /** In every run, no start signal is ever in two places; and each is in one, whichever store calls
      fail, exactly when no SetStart of a launch or an adoption ever came upon a start already set. */
  lemma NoSignalLostExactly(steps: seq<Step>)
    ensures var s := Run(Initial, steps);
            && (forall no, p, p' :: SignalAt(s, no, p) && SignalAt(s, no, p') ==> p == p')
            && ((forall no :: 0 <= no < |s.fates| ==> Somewhere(s, no)) <==> NeverOverStamps(Initial, steps))
  {
    var s := Run(Initial, steps);
    InitialOk();
    RunKeeps(Initial, steps);
    LosesExactly(Initial, steps);
    forall no, p, p' | SignalAt(s, no, p) && SignalAt(s, no, p') ensures p == p' { OnePlaceAtMost(s, no, p, p'); }
    forall no | 0 <= no < |s.fates| ensures Somewhere(s, no) <==> !LostSignal(s, no) { NowhereIsLost(s, no); }
    assert NoneLost(s) <==> forall no :: 0 <= no < |s.fates| ==> !LostSignal(s, no);
  }

  /** In every run, stamped over or not: the signals that became orphan runs became different ones,
      each run is in one place of OrphanFlow, and the start of an adopted run stays on its row. */
  lemma NoRunIsStampedOver(steps: seq<Step>)
    ensures var s := Run(Initial, steps);
            && (forall m, n :: 0 <= m < n < |s.fates| && s.fates[m].AsRun? ==> s.fates[m] != s.fates[n])
            && (forall i :: 0 <= i < |s.flow.queued| ==> F.HasOnePlace(s.flow, s.flow.queued[i]))
            && AdoptedOk(s)
  {
    var s := Run(Initial, steps);
    InitialOk();
    RunKeeps(Initial, steps);
    var home :| F.Inv(s.flow, home);
    forall i | 0 <= i < |s.flow.queued| ensures F.HasOnePlace(s.flow, s.flow.queued[i]) {
      assert F.At(s.flow, s.flow.queued[i], home[i]);
    }
  }

  // ---------------------------------------------------------------- the smallest loss

  /** Every adoption is open to it: a start that reaches the claimed row before the stamp is lost. */
  lemma StartBetweenClaimAndStampIsLost(s: State, tid: int, row: int)
    requires Inv(s) && tid !in s.tasks && Claiming(s.flow, tid) == Some(row) && Ready(s, row)
    ensures LostSignal(Apply(Apply(s, Tap(row, true)), AdoptStamp(tid, true)), |s.fates|)
  {
    var s' := Apply(s, Tap(row, true));
    StepKeeps(s, Tap(row, true));
    assert s'.rows[row].start == Some(BySignal(|s.fates|));
    var no := OverStampingLoses(s', AdoptStamp(tid, true));
  }

  const FIRST_RUN: O.OrphanRun := O.OrphanRun(1, 1_000, 0)

  const REPORTED: F.Thread := F.Reporting([], F.NothingMore)

  /** Signal 0 found no car and is orphan run 1; row 1 is waiting. */
  const RunQueued: State :=
    State(F.State([FIRST_RUN], 1, map[0 := REPORTED], [], [], [], [], [], [FIRST_RUN]),
          map[1 := Row(Waiting, None)], map[], [AsRun(1)])

  /** An adoption of that run has claimed row 1. */
  const RowClaimed: State :=
    State(F.State([], 1, map[0 := REPORTED, 1 := F.AdoptClaimed(FIRST_RUN, 1)], [], [], [], [], [], [FIRST_RUN]),
          map[1 := Row(OnCourse, None)], map[], [AsRun(1)])

  lemma FirstSignalIsQueued()
    ensures Apply(Apply(Apply(Initial, StartSignal(0, [], 1_000, 0, 300)), QueueRun(0)), Join(1)) == RunQueued
  {
    var a := Apply(Initial, StartSignal(0, [], 1_000, 0, 300));
    assert a == State(F.Initial, map[], map[0 := Trying(0, [], 1_000, 0, 300)], [InHand]);
    var b := Apply(a, QueueRun(0));
    assert b.fates == [AsRun(1)] && b.tasks == map[];
  }

  lemma AdoptionClaims()
    ensures Apply(Apply(RunQueued, Flow(F.AdoptTake(1, 1, 1))), AdoptClaim(1, true)) == RowClaimed
  {
    var a := Apply(RunQueued, Flow(F.AdoptTake(1, 1, 1)));
    assert O.Without([FIRST_RUN], 1) == [];
    assert a.flow.fifo == [] && a.flow.threads == map[0 := REPORTED, 1 := F.AdoptTaken(FIRST_RUN, 1)];
    var b := Apply(a, AdoptClaim(1, true));
    assert b.flow.threads == map[0 := REPORTED, 1 := F.AdoptClaimed(FIRST_RUN, 1)];
    assert b.rows == map[1 := Row(OnCourse, None)];
  }

  lemma SecondSignalIsLost()
    ensures var s := Apply(Apply(Apply(RowClaimed, StartSignal(2, [1], 2_000, 0, 300)), TryNext(2, true)), AdoptStamp(1, true));
            LostSignal(s, 1) && s.fates == [AsRun(1), OnRow(1)] && s.rows == map[1 := Row(OnCourse, Some(ByRun(1)))]
  {
    var a := Apply(RowClaimed, StartSignal(2, [1], 2_000, 0, 300));
    assert IsSnapshot(RowClaimed, [1]);
    assert a == RowClaimed.(tasks := map[2 := Trying(1, [1], 2_000, 0, 300)], fates := [AsRun(1), InHand]);
    var b := Apply(a, TryNext(2, true));
    assert b == RowClaimed.(rows := map[1 := Row(OnCourse, Some(BySignal(1)))], fates := [AsRun(1), OnRow(1)]) by {
      assert b.tasks == map[];
      assert b.rows == map[1 := Row(OnCourse, Some(BySignal(1)))];
    }
    var c := Apply(b, AdoptStamp(1, true));
    assert c.rows == map[1 := Row(OnCourse, Some(ByRun(1)))];
  }

  lemma {:induction false} RunBoth(s: State, xs: seq<Step>, ys: seq<Step>)
    ensures Run(s, xs + ys) == Run(Run(s, xs), ys)
    decreases |xs|
  {
    if xs == [] {
      assert xs + ys == ys;
    } else {
      assert (xs + ys)[1..] == xs[1..] + ys;
      RunBoth(Apply(s, xs[0]), xs[1..], ys);
    }
  }

  lemma RunOf(s: State, x: Step, y: Step, z: Step)
    ensures Run(s, [x, y]) == Apply(Apply(s, x), y)
    ensures Run(s, [x, y, z]) == Apply(Apply(Apply(s, x), y), z)
  {
    RunOne(Apply(s, x), y);
    assert [x, y][1..] == [y];
    RunOne(Apply(Apply(s, x), y), z);
    assert [x, y, z][1..] == [y, z] && [y, z][1..] == [z];
  }

  lemma RunOne(s: State, x: Step)
    ensures Run(s, [x]) == Apply(s, x)
  {
    assert [x][1..] == [];
  }

  /** A run of eight steps in which every store call succeeds and a start trigger is lost: signal 0
      finds no car and is queued; while the operator adopts it for row 1, signal 1 comes between the
      adoption's two store calls, is stamped on the row, and the adoption writes over it. */
  lemma AdoptionLosesASignal() returns (steps: seq<Step>)
    ensures |steps| == 8
    ensures var s := Run(Initial, steps);
            LostSignal(s, 1) && s.fates == [AsRun(1), OnRow(1)] && s.rows == map[1 := Row(OnCourse, Some(ByRun(1)))]
  {
    var xs := [StartSignal(0, [], 1_000, 0, 300), QueueRun(0), Join(1)];
    var ys := [Flow(F.AdoptTake(1, 1, 1)), AdoptClaim(1, true)];
    var zs := [StartSignal(2, [1], 2_000, 0, 300), TryNext(2, true), AdoptStamp(1, true)];
    steps := xs + (ys + zs);
    FirstSignalIsQueued();
    AdoptionClaims();
    SecondSignalIsLost();
    RunOf(Initial, xs[0], xs[1], xs[2]);
    RunOf(RunQueued, ys[0], ys[1], ys[1]);
    RunOf(RowClaimed, zs[0], zs[1], zs[2]);
    RunBoth(Initial, xs, ys + zs);
    RunBoth(RunQueued, ys, zs);
  }
}
