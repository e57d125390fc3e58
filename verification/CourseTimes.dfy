/** What a time on record means, over whole runs of the course protocol: each finish log tells one
    finish of one row, and its time is from the step that last started that row to the goal. */
module CourseTimes {
  import opened Common
  import opened QueueTable
  import opened Course
  import opened CourseInv
  import opened CourseLaws
  import opened CourseRecords
  import CR = CourseRuns

  ghost function StateAt(steps: seq<Step>, k: int): (s: State)
    requires 0 <= k <= |steps|
    ensures Inv(s)
  {
    CR.EmptyOk();
    CR.Run(Empty, steps[..k])
  }

  lemma {:induction false} RunOneMore(s: State, steps: seq<Step>, x: Step)
    requires Inv(s)
    ensures CR.Run(s, steps + [x]) == Apply(CR.Run(s, steps), x).s
    decreases |steps|
  {
    if steps == [] {
      StepKeeps(s, x);
      assert ([] + [x])[1..] == [];
      assert CR.Run(Apply(s, x).s, []) == Apply(s, x).s;
    } else {
      StepKeeps(s, steps[0]);
      assert (steps + [x])[1..] == steps[1..] + [x];
      RunOneMore(Apply(s, steps[0]).s, steps[1..], x);
    }
  }

  lemma NextState(steps: seq<Step>, k: int)
    requires 0 <= k < |steps|
    ensures StateAt(steps, k + 1) == Apply(StateAt(steps, k), steps[k]).s
  {
    CR.EmptyOk();
    assert steps[..k + 1] == steps[..k] + [steps[k]];
    RunOneMore(Empty, steps[..k], steps[k]);
  }

  // ---------------------------------------------------------------- starts

  /** What step i means for the row. */
  ghost function MeantAt(steps: seq<Step>, i: int, q: int): (c: Change)
    requires 0 <= i < |steps|
  {
    if q in StateAt(steps, i).queue then Meant(StateAt(steps, i), steps[i], q) else Unmoved
  }

  /** What the first k steps meant for the row, one by one. */
  ghost function Story(steps: seq<Step>, k: int, q: int): (cs: seq<Change>)
    requires 0 <= k <= |steps|
    ensures |cs| == k
    decreases k
  {
    if k == 0 then [] else Story(steps, k - 1, q) + [MeantAt(steps, k - 1, q)]
  }

  predicate TouchesStart(c: Change) {
    c.Started? || c.OnTrack? || c.Rearmed? || c.SentBack?
  }

  /** The i-th change started the row at this time: a trigger, a tap, a launch by hand or an adopted
      run; and none since has touched its start. */
  ghost predicate LastStart(cs: seq<Change>, i: int, at: int) {
    && 0 <= i < |cs| && (cs[i] == Started(at) || cs[i] == OnTrack(Some(at)))
    && forall m :: i < m < |cs| ==> !TouchesStart(cs[m])
  }

  ghost predicate StartKnown(cs: seq<Change>, at: int) {
    exists i :: LastStart(cs, i, at)
  }

  lemma StartGoesOn(cs: seq<Change>, c: Change, at: int)
    requires if TouchesStart(c) then c == Started(at) || c == OnTrack(Some(at)) else StartKnown(cs, at)
    ensures StartKnown(cs + [c], at)
  {
    if TouchesStart(c) {
      assert LastStart(cs + [c], |cs|, at);
    } else {
      var i :| LastStart(cs, i, at);
      assert LastStart(cs + [c], i, at);
    }
  }

  lemma StartOfChange(r: Row, c: Change, r': Row)
    requires r' == Changed(r, c).(position := r'.position) && r'.tStart.Some?
    ensures if TouchesStart(c) then c == Started(r'.tStart.value) || c == OnTrack(r'.tStart) else r.tStart == r'.tStart
  {
  }

  lemma JoinedIsNotStarted(s: State, x: Step, s': State, q: int)
    requires RowsJoin(s, x, s') && q in s'.queue && q !in s.queue
    ensures s'.queue[q].tStart == None
  {
  }

  lemma StartOfRow(s: State, x: Step, s': State, q: int)
    requires RowsJoin(s, x, s') && RowsFollow(s, x, s') && q in s'.queue && s'.queue[q].tStart.Some?
    ensures q in s.queue
    ensures var at := s'.queue[q].tStart; var c := Meant(s, x, q);
            if TouchesStart(c) then c == Started(at.value) || c == OnTrack(at) else s.queue[q].tStart == at
  {
    if q in s.queue {
      assert RowFollows(s, x, s', q);
      StartOfChange(s.queue[q], Meant(s, x, q), s'.queue[q]);
    } else {
      JoinedIsNotStarted(s, x, s', q);
    }
  }

  lemma StartOfStep(s: State, x: Step, q: int)
    requires Inv(s) && q in Apply(s, x).s.queue && Apply(s, x).s.queue[q].tStart.Some?
    ensures q in s.queue
    ensures var at := Apply(s, x).s.queue[q].tStart; var c := Meant(s, x, q);
            if TouchesStart(c) then c == Started(at.value) || c == OnTrack(at) else s.queue[q].tStart == at
  {
    RowsJoinByEntries(s, x);
    RowsFollowSteps(s, x);
    StartOfRow(s, x, Apply(s, x).s, q);
  }

  /** A row's start is the time of the last step that started it, with nothing since taken back. */
  lemma {:induction false} StartIsLast(steps: seq<Step>, k: int, q: int, at: int)
    requires 0 <= k <= |steps| && q in StateAt(steps, k).queue && StateAt(steps, k).queue[q].tStart == Some(at)
    ensures StartKnown(Story(steps, k, q), at)
    decreases k
  {
    if k > 0 {
      var c := MeantAt(steps, k - 1, q);
      NextState(steps, k - 1);
      StartOfStep(StateAt(steps, k - 1), steps[k - 1], q);
      if !TouchesStart(c) { StartIsLast(steps, k - 1, q, at); }
      StartGoesOn(Story(steps, k - 1, q), c, at);
    }
  }

  // ---------------------------------------------------------------- finish logs

  /** No log handler was ever called for this log. */
  predicate Untouched(steps: seq<Step>, l: int) {
    forall i :: 0 <= i < |steps| ==> !EditsLog(steps[i], l)
  }

  predicate EditsLog(step: Step, l: int) {
    (step.DoLogUpdate? || step.DoLogDelete? || step.DoLogAssign?) && step.logId == l
  }

  /** Step k finishes row q with a goal at goalUs, as log l. */
  ghost predicate FinishedAt(steps: seq<Step>, k: int, l: int, q: int, goalUs: int, source: Source, now: int) {
    0 <= k < |steps| && Finishes(StateAt(steps, k), steps[k], q, goalUs, source, now) && StateAt(steps, k).nextLog == l
  }

  /** The log tells a finish of row q by step k, timed from the last step that started the row. */
  ghost predicate Tells(steps: seq<Step>, log: LogRow, l: int, k: int, q: int, at: int, goalUs: int) {
    exists source, now ::
      && FinishedAt(steps, k, l, q, goalUs, source, now)
      && StateAt(steps, k).queue[q].tStart == Some(at) && StartKnown(Story(steps, k, q), at)
      && TellsFinish(log, StateAt(steps, k).queue[q], q, goalUs, source, now)
  }

  ghost predicate TellsSome(steps: seq<Step>, log: LogRow, l: int) {
    exists k, q, at, goalUs :: Tells(steps, log, l, k, q, at, goalUs)
  }

  /** The step writes the log, as the finish of a row. */
  ghost predicate WritesFinish(s: State, x: Step, l: int, log: LogRow) {
    l == s.nextLog && exists q, g, source, now :: Finishes(s, x, q, g, source, now) && TellsFinish(log, s.queue[q], q, g, source, now)
  }

  lemma LogOfStep(s: State, x: Step, l: int)
    requires Inv(s) && l in Apply(s, x).s.logs && Apply(s, x).s.logs[l].origin.FromFinish?
    ensures var log := Apply(s, x).s.logs[l];
            (l in s.logs && s.logs[l].origin == log.origin && (s.logs[l] == log || EditsLog(x, l))) || WritesFinish(s, x, l, log)
  {
    RecordsFollow(s, x);
    if x.DoFinishById? || x.DoFinishOldest? || x.DoSensorGoal? { FinishLogOfStep(s, x, l); }
    else { OtherLogOfStep(s, x, l); }
  }

  lemma FinishLogOfStep(s: State, x: Step, l: int)
    requires Inv(s) && RecordsTold(s, x, Apply(s, x)) && (x.DoFinishById? || x.DoFinishOldest? || x.DoSensorGoal?)
    requires l in Apply(s, x).s.logs && Apply(s, x).s.logs[l].origin.FromFinish?
    ensures (l in s.logs && s.logs[l] == Apply(s, x).s.logs[l]) || WritesFinish(s, x, l, Apply(s, x).s.logs[l])
  {
    if SomeFinish(s, x) {
      var q, g, source, now :| Finishes(s, x, q, g, source, now);
      if x.DoSensorGoal? { assert !GoalForNoCar(s, x); }
      assert Recorded(s, Apply(s, x).s, q, g, source, now);
    }
  }

  lemma OtherLogOfStep(s: State, x: Step, l: int)
    requires Inv(s) && RecordsTold(s, x, Apply(s, x)) && !x.DoFinishById? && !x.DoFinishOldest? && !x.DoSensorGoal?
    requires l in Apply(s, x).s.logs && Apply(s, x).s.logs[l].origin.FromFinish?
    ensures l in s.logs && s.logs[l].origin == Apply(s, x).s.logs[l].origin && (s.logs[l] == Apply(s, x).s.logs[l] || EditsLog(x, l))
  {
  }

  lemma WrittenTells(steps: seq<Step>, k: int, l: int, log: LogRow)
    requires 0 <= k < |steps| && WritesFinish(StateAt(steps, k), steps[k], l, log)
    ensures TellsSome(steps, log, l)
  {
    var s := StateAt(steps, k);
    var q, g, source, now :| Finishes(s, steps[k], q, g, source, now) && TellsFinish(log, s.queue[q], q, g, source, now);
    var at := s.queue[q].tStart.value;
    StartIsLast(steps, k, q, at);
    assert FinishedAt(steps, k, l, q, g, source, now);
    assert Tells(steps, log, l, k, q, at, g);
  }

  /** In every run, each log of a finish that no log handler was called for tells one finish of one
      row: its event, driver and vehicle, its penalties and mis-course at that moment, and the time
      in whole milliseconds from the last step that started the row to the goal. */
  lemma {:induction false} FinishLogsTell(steps: seq<Step>, k: int, l: int)
    requires 0 <= k <= |steps| && Untouched(steps, l)
    requires l in StateAt(steps, k).logs && StateAt(steps, k).logs[l].origin.FromFinish?
    ensures TellsSome(steps, StateAt(steps, k).logs[l], l)
    decreases k
  {
    if k > 0 {
      NextState(steps, k - 1);
      LogOfStep(StateAt(steps, k - 1), steps[k - 1], l);
      if WritesFinish(StateAt(steps, k - 1), steps[k - 1], l, StateAt(steps, k).logs[l]) {
        WrittenTells(steps, k - 1, l, StateAt(steps, k).logs[l]);
      } else {
        FinishLogsTell(steps, k - 1, l);
      }
    }
  }
}
