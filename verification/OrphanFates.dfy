/** Why an orphan run is where it is (internal/web/sensor.go, internal/web/admin_course.go): what
    happened to each run, told from the triggers, requests and replies of the whole run of steps. */
module OrphanFates {
  import opened Common
  import opened OrphanFifo
  import opened OrphanFlow

  function StateAt(steps: seq<Step>, k: int): (s: State)
    requires 0 <= k <= |steps|
  {
    Run(Initial, steps[..k])
  }

  lemma {:induction false} RunOneMore(s: State, steps: seq<Step>, x: Step)
    ensures Run(s, steps + [x]) == Apply(Run(s, steps), x)
    decreases |steps|
  {
    if steps == [] {
      assert ([] + [x])[1..] == [];
      assert Run(Apply(s, x), []) == Apply(s, x);
    } else {
      assert (steps + [x])[1..] == steps[1..] + [x];
      RunOneMore(Apply(s, steps[0]), steps[1..], x);
    }
  }

  lemma LastStep(steps: seq<Step>)
    requires steps != []
    ensures var k := |steps| - 1;
            StateAt(steps, |steps|) == Apply(StateAt(steps, k), steps[k])
    ensures forall i :: 0 <= i < |steps| ==> StateAt(steps[..|steps| - 1], i) == StateAt(steps, i)
  {
    var k := |steps| - 1;
    assert steps[..k] + [steps[k]] == steps == steps[..|steps|];
    RunOneMore(Initial, steps[..k], steps[k]);
    forall i | 0 <= i < |steps| ensures StateAt(steps[..k], i) == StateAt(steps, i) {
      assert steps[..k][..i] == steps[..i];
    }
  }

  // ---------------------------------------------------------------- what a run came from

  predicate IdleAt(steps: seq<Step>, i: int, tid: int)
    requires 0 <= i < |steps|
  {
    steps[i].tid == tid && tid !in StateAt(steps, i).threads
  }

  /** The start triggers that found no car, in order: what was queued. */
  function Starts(steps: seq<Step>): (out: seq<(int, int)>)
    decreases |steps|
  {
    if steps == [] then []
    else
      var k := |steps| - 1;
      Starts(steps[..k]) +
      if steps[k].StartTrigger? && IdleAt(steps, k, steps[k].tid) then [(steps[k].tUs, steps[k].atMs)] else []
  }

  /** The k-th run queued is the k-th such trigger, with its time and moment and the number k. */
  lemma {:induction false} QueuedAreStarts(steps: seq<Step>)
    ensures var q := Run(Initial, steps).queued; var starts := Starts(steps);
            |q| == |starts| && forall k :: 0 <= k < |q| ==> q[k] == OrphanRun(k + 1, starts[k].0, starts[k].1)
    decreases |steps|
  {
    if steps != [] {
      var k := |steps| - 1;
      QueuedAreStarts(steps[..k]);
      LastStep(steps);
      assert steps[..|steps|] == steps;
      NumberedSoFar(steps[..k]);
      QueuedGrows(StateAt(steps, k), steps[k]);
    }
  }

  lemma NumberedSoFar(steps: seq<Step>)
    ensures Numbered(Run(Initial, steps))
  {
    InitialOk();
    var home := RunKeeps(Initial, [], steps);
  }

  lemma QueuedGrows(s: State, step: Step)
    ensures Apply(s, step).queued ==
            if step.StartTrigger? && step.tid !in s.threads then s.queued + [OrphanRun(s.orphanSeq + 1, step.tUs, step.atMs)] else s.queued
  {
  }

  // ---------------------------------------------------------------- what a request holds, and why

  /** Step i is a goal trigger of this request, and the run is the oldest one still in time for it. */
  ghost predicate PoppedAt(steps: seq<Step>, i: int, tid: int, run: OrphanRun, goalUs: int) {
    && 0 <= i < |steps| && steps[i].GoalTrigger? && IdleAt(steps, i, tid) && steps[i].tUs == goalUs
    && IsOldestInTime(StateAt(steps, i).fifo, run, goalUs, steps[i].maxSec)
  }

  /** Step i is a trigger of this request that came too late for the run. */
  ghost predicate PrunedAt(steps: seq<Step>, i: int, tid: int, run: OrphanRun) {
    && 0 <= i < |steps| && IdleAt(steps, i, tid) && run in StateAt(steps, i).fifo
    && ((steps[i].GoalTrigger? && TooOld(run, steps[i].tUs, steps[i].maxSec))
        || (steps[i].StartTrigger? && TooOld(run, steps[i].tUs, steps[i].maxSec)))
  }

  /** Step i is an adoption of the run for this row. */
  ghost predicate TakenAt(steps: seq<Step>, i: int, tid: int, run: OrphanRun, row: int) {
    && 0 <= i < |steps| && IdleAt(steps, i, tid) && steps[i] == AdoptTake(tid, run.id, row)
    && run in StateAt(steps, i).fifo
  }

  ghost predicate WasPopped(steps: seq<Step>, tid: int, run: OrphanRun, goalUs: int) {
    exists i :: PoppedAt(steps, i, tid, run, goalUs)
  }

  ghost predicate WasPruned(steps: seq<Step>, tid: int, run: OrphanRun) {
    exists i :: PrunedAt(steps, i, tid, run)
  }

  ghost predicate WasTaken(steps: seq<Step>, tid: int, run: OrphanRun, row: int) {
    exists i :: TakenAt(steps, i, tid, run, row)
  }

  ghost predicate Justified(steps: seq<Step>, tid: int, th: Thread) {
    match th
    case Reporting(expired, after) =>
      && (forall r :: r in expired ==> WasPruned(steps, tid, r))
      && (after.ThenPair? ==> WasPopped(steps, tid, after.run, after.goalUs))
    case Pairing(run, goalUs) => WasPopped(steps, tid, run, goalUs)
    case AdoptTaken(run, row) => WasTaken(steps, tid, run, row)
    case AdoptClaimed(run, row) => WasTaken(steps, tid, run, row)
  }

  lemma StillSo(steps: seq<Step>, tid: int)
    requires steps != []
    ensures var before := steps[..|steps| - 1];
            && (forall r, g :: WasPopped(before, tid, r, g) ==> WasPopped(steps, tid, r, g))
            && (forall r :: WasPruned(before, tid, r) ==> WasPruned(steps, tid, r))
            && (forall r, row :: WasTaken(before, tid, r, row) ==> WasTaken(steps, tid, r, row))
  {
    var before := steps[..|steps| - 1];
    LastStep(steps);
    forall r, g | WasPopped(before, tid, r, g) ensures WasPopped(steps, tid, r, g) {
      var i :| PoppedAt(before, i, tid, r, g);
      assert PoppedAt(steps, i, tid, r, g);
    }
    forall r | WasPruned(before, tid, r) ensures WasPruned(steps, tid, r) {
      var i :| PrunedAt(before, i, tid, r);
      assert PrunedAt(steps, i, tid, r);
    }
    forall r, row | WasTaken(before, tid, r, row) ensures WasTaken(steps, tid, r, row) {
      var i :| TakenAt(before, i, tid, r, row);
      assert TakenAt(steps, i, tid, r, row);
    }
  }

  lemma {:induction false} RequestsAreJustified(steps: seq<Step>)
    ensures forall tid :: tid in Run(Initial, steps).threads ==> Justified(steps, tid, Run(Initial, steps).threads[tid])
    decreases |steps|
  {
    if steps != [] {
      var k := |steps| - 1;
      var s, s' := StateAt(steps, k), Run(Initial, steps);
      RequestsAreJustified(steps[..k]);
      LastStep(steps);
      assert steps[..|steps|] == steps && s' == Apply(s, steps[k]);
      FifoIncreasing(steps[..k]);
      forall tid | tid in s'.threads ensures Justified(steps, tid, s'.threads[tid]) {
        StillSo(steps, tid);
        if tid in s.threads && s'.threads[tid] == s.threads[tid] { StaysJustified(steps, tid, s.threads[tid]); }
        else { NewlyJustified(steps, tid); }
      }
    }
  }

  lemma FifoIncreasing(steps: seq<Step>)
    ensures Increasing(Run(Initial, steps).fifo)
  {
    InitialOk();
    var home := RunKeeps(Initial, [], steps);
  }

  lemma StaysJustified(steps: seq<Step>, tid: int, th: Thread)
    requires steps != [] && Justified(steps[..|steps| - 1], tid, th)
    ensures Justified(steps, tid, th)
  {
    StillSo(steps, tid);
  }

  /** A request that the last step started or moved on. */
  lemma NewlyJustified(steps: seq<Step>, tid: int)
    requires steps != []
    requires var k := |steps| - 1; var s := StateAt(steps, k); var s' := Apply(s, steps[k]);
             && tid in s'.threads && Increasing(s.fifo)
             && !(tid in s.threads && s'.threads[tid] == s.threads[tid])
             && (tid in s.threads ==> Justified(steps[..k], tid, s.threads[tid]))
    ensures var k := |steps| - 1; Justified(steps, tid, Apply(StateAt(steps, k), steps[k]).threads[tid])
  {
    var k := |steps| - 1;
    var s, x := StateAt(steps, k), steps[k];
    StillSo(steps, tid);
    if tid !in s.threads {
      match x
      case StartTrigger(_, tUs, _, maxSec) => PruneJustified(steps, tid, tUs, maxSec);
      case GoalTrigger(_, tUs, maxSec) =>
        PruneJustified(steps, tid, tUs, maxSec);
        if Kept(s.fifo, tUs, maxSec) != [] { PopJustified(steps, tid, tUs, maxSec); }
      case AdoptTake(_, id, row) => assert TakenAt(steps, k, tid, s.fifo[IndexOf(s.fifo, id)], row);
      case _ =>
    }
  }

  lemma PruneJustified(steps: seq<Step>, tid: int, tUs: int, maxSec: int)
    requires steps != []
    requires var k := |steps| - 1; var x := steps[k];
             IdleAt(steps, k, tid) && ((x.StartTrigger? && x.tUs == tUs && x.maxSec == maxSec) || x == GoalTrigger(tid, tUs, maxSec))
    ensures forall r :: r in Pruned(StateAt(steps, |steps| - 1).fifo, tUs, maxSec) ==> WasPruned(steps, tid, r)
  {
    var k := |steps| - 1;
    var fifo := StateAt(steps, k).fifo;
    SelectSound(fifo, tUs, maxSec, true);
    forall r | r in Pruned(fifo, tUs, maxSec) ensures WasPruned(steps, tid, r) { assert PrunedAt(steps, k, tid, r); }
  }

  lemma PopJustified(steps: seq<Step>, tid: int, tUs: int, maxSec: int)
    requires steps != []
    requires IdleAt(steps, |steps| - 1, tid) && steps[|steps| - 1] == GoalTrigger(tid, tUs, maxSec)
    requires Increasing(StateAt(steps, |steps| - 1).fifo) && Kept(StateAt(steps, |steps| - 1).fifo, tUs, maxSec) != []
    ensures WasPopped(steps, tid, Kept(StateAt(steps, |steps| - 1).fifo, tUs, maxSec)[0], tUs)
  {
    var k := |steps| - 1;
    var fifo := StateAt(steps, k).fifo;
    var kept := Kept(fifo, tUs, maxSec);
    SelectSound(fifo, tUs, maxSec, false);
    SelectIncreasing(fifo, tUs, maxSec, false);
    forall r | r in kept ensures kept[0].id <= r.id { var i :| 0 <= i < |kept| && kept[i] == r; }
    var head := kept[0];
    assert head in kept;
    assert PoppedAt(steps, k, tid, head, tUs);
  }

  // ---------------------------------------------------------------- what became of it

  /** Step j is the end of this request's goal: the pairing of the run with the goal that popped it. */
  ghost predicate PairedAt(steps: seq<Step>, j: int, run: OrphanRun, goalUs: int) {
    && 0 <= j < |steps| && steps[j].Pair?
    && (var tid, threads := steps[j].tid, StateAt(steps, j).threads;
        tid in threads && threads[tid] == Pairing(run, goalUs) && WasPopped(steps[..j], tid, run, goalUs))
  }

  ghost predicate LoggedAt(steps: seq<Step>, j: int, run: OrphanRun, goalUs: int) {
    PairedAt(steps, j, run, goalUs) && steps[j].inserted == Succeeded && goalUs - run.tStart > -1000
  }

  ghost predicate TooEarlyAt(steps: seq<Step>, j: int, run: OrphanRun, goalUs: int) {
    PairedAt(steps, j, run, goalUs) && goalUs - run.tStart <= -1000
  }

  /** Step j reports the run as expired, for a trigger that came too late for it. */
  ghost predicate ReportedAt(steps: seq<Step>, j: int, run: OrphanRun) {
    && 0 <= j < |steps| && steps[j].Report?
    && (var tid, threads := steps[j].tid, StateAt(steps, j).threads;
        && tid in threads && threads[tid].Reporting? && threads[tid].expired != [] && threads[tid].expired[0] == run
        && WasPruned(steps[..j], tid, run))
  }

  /** Step j dismisses the run. */
  ghost predicate DismissedAt(steps: seq<Step>, j: int, run: OrphanRun) {
    0 <= j < |steps| && IdleAt(steps, j, steps[j].tid) && steps[j] == Dismiss(steps[j].tid, run.id) && run in StateAt(steps, j).fifo
  }

  /** Step j stamps the run on the row it was taken for, which the request has claimed. */
  ghost predicate AdoptedAt(steps: seq<Step>, j: int, run: OrphanRun, row: int) {
    && 0 <= j < |steps| && steps[j].AdoptStamp? && steps[j].stamped == Succeeded
    && (var tid, threads := steps[j].tid, StateAt(steps, j).threads;
        tid in threads && threads[tid] == AdoptClaimed(run, row) && WasTaken(steps[..j], tid, run, row))
  }

  ghost predicate EndedAs(steps: seq<Step>, p: Place, run: OrphanRun) {
    match p
    case UnassignedLog => exists j, g :: LoggedAt(steps, j, run, g)
    case GoalBeforeStart => exists j, g :: TooEarlyAt(steps, j, run, g)
    case ExpiredWarning => exists j :: ReportedAt(steps, j, run)
    case Dismissed => exists j :: DismissedAt(steps, j, run)
    case AdoptedRow => exists j, row :: AdoptedAt(steps, j, run, row)
    case _ => false
  }

  predicate IsEnd(p: Place) {
    !p.InFifo? && !p.InFlight?
  }

  /** What one step adds to the places where runs end. */
  ghost predicate EndsNow(steps: seq<Step>, p: Place, run: OrphanRun)
    requires steps != []
  {
    var k := |steps| - 1;
    match p
    case UnassignedLog => exists g :: LoggedAt(steps, k, run, g)
    case GoalBeforeStart => exists g :: TooEarlyAt(steps, k, run, g)
    case ExpiredWarning => ReportedAt(steps, k, run)
    case Dismissed => DismissedAt(steps, k, run)
    case AdoptedRow => exists row :: AdoptedAt(steps, k, run, row)
    case _ => false
  }

  lemma EarlierStepsSame(steps: seq<Step>, p: Place, run: OrphanRun)
    requires steps != [] && IsEnd(p)
    ensures EndedAs(steps, p, run) <==> EndedAs(steps[..|steps| - 1], p, run) || EndsNow(steps, p, run)
  {
    var k := |steps| - 1;
    var before := steps[..k];
    LastStep(steps);
    forall j | 0 <= j < k ensures before[..j] == steps[..j] && before[j] == steps[j] { }
    match p
    case UnassignedLog => forall j, g | 0 <= j < k ensures LoggedAt(before, j, run, g) <==> LoggedAt(steps, j, run, g) { }
    case GoalBeforeStart => forall j, g | 0 <= j < k ensures TooEarlyAt(before, j, run, g) <==> TooEarlyAt(steps, j, run, g) { }
    case ExpiredWarning => forall j | 0 <= j < k ensures ReportedAt(before, j, run) <==> ReportedAt(steps, j, run) { }
    case Dismissed => forall j | 0 <= j < k ensures DismissedAt(before, j, run) <==> DismissedAt(steps, j, run) { }
    case AdoptedRow => forall j, row | 0 <= j < k ensures AdoptedAt(before, j, run, row) <==> AdoptedAt(steps, j, run, row) { }
  }

  lemma EarlyIs(run: OrphanRun, goalUs: int)
    ensures TruncDiv(goalUs - run.tStart, 1000) < 0 <==> goalUs - run.tStart <= -1000
  {
    TruncDivNegative(goalUs - run.tStart, 1000);
  }

  lemma PairEnds(steps: seq<Step>, p: Place, run: OrphanRun)
    requires steps != [] && (p == UnassignedLog || p == GoalBeforeStart)
    requires var s := StateAt(steps, |steps| - 1);
             forall tid :: tid in s.threads ==> Justified(steps[..|steps| - 1], tid, s.threads[tid])
    ensures var s := StateAt(steps, |steps| - 1);
            At(Apply(s, steps[|steps| - 1]), run, p) <==> At(s, run, p) || EndsNow(steps, p, run)
  {
    var k := |steps| - 1;
    var s, x := StateAt(steps, k), steps[k];
    if x.Pair? && x.tid in s.threads && s.threads[x.tid].Pairing? {
      var th := s.threads[x.tid];
      EarlyIs(th.run, th.goalUs);
      assert PairedAt(steps, k, th.run, th.goalUs);
      assert p == UnassignedLog && LoggedAt(steps, k, th.run, th.goalUs) ==> EndsNow(steps, p, th.run);
      assert p == GoalBeforeStart && TooEarlyAt(steps, k, th.run, th.goalUs) ==> EndsNow(steps, p, th.run);
    }
  }

  lemma OtherEnds(steps: seq<Step>, p: Place, run: OrphanRun)
    requires steps != [] && (p == ExpiredWarning || p == Dismissed)
    requires var s := StateAt(steps, |steps| - 1);
             forall tid :: tid in s.threads ==> Justified(steps[..|steps| - 1], tid, s.threads[tid])
    requires Increasing(StateAt(steps, |steps| - 1).fifo)
    ensures var s := StateAt(steps, |steps| - 1);
            At(Apply(s, steps[|steps| - 1]), run, p) <==> At(s, run, p) || EndsNow(steps, p, run)
  {
    var k := |steps| - 1;
    var s, x := StateAt(steps, k), steps[k];
    if x.Dismiss? && run in s.fifo && run.id == x.id {
      var i :| 0 <= i < |s.fifo| && s.fifo[i] == run;
      IndexOfPresent(s.fifo, i);
    }
  }

  lemma AdoptionEnds(steps: seq<Step>, run: OrphanRun, row: int)
    requires steps != []
    requires var s := StateAt(steps, |steps| - 1);
             forall tid :: tid in s.threads ==> Justified(steps[..|steps| - 1], tid, s.threads[tid])
    ensures var s := StateAt(steps, |steps| - 1);
            (run, row) in Apply(s, steps[|steps| - 1]).adopted <==> (run, row) in s.adopted || AdoptedAt(steps, |steps| - 1, run, row)
  {
  }

  /** In every run of steps: the adopted runs and their rows are exactly those that an adoption took
      out of the FIFO for that row, claimed it for, and stamped on it. */
  lemma {:induction false} AdoptedExactly(steps: seq<Step>, run: OrphanRun, row: int)
    ensures (run, row) in Run(Initial, steps).adopted <==> exists j :: AdoptedAt(steps, j, run, row)
    decreases |steps|
  {
    if steps != [] {
      var k := |steps| - 1;
      var before := steps[..k];
      AdoptedExactly(before, run, row);
      RequestsAreJustified(before);
      LastStep(steps);
      assert steps[..|steps|] == steps;
      AdoptionEnds(steps, run, row);
      forall j | 0 <= j < k ensures AdoptedAt(before, j, run, row) <==> AdoptedAt(steps, j, run, row) {
        assert before[..j] == steps[..j] && before[j] == steps[j];
      }
    }
  }

  lemma InAdopted(s: State, run: OrphanRun)
    ensures At(s, run, AdoptedRow) <==> exists row :: (run, row) in s.adopted
  {
    var rs := Runs(s.adopted);
    if At(s, run, AdoptedRow) {
      var i :| 0 <= i < |rs| && rs[i] == run;
      var row := s.adopted[i].1;
      assert s.adopted[i] == (run, row);
      assert (run, row) in s.adopted;
    }
    if exists row :: (run, row) in s.adopted {
      var row :| (run, row) in s.adopted;
      var i :| 0 <= i < |s.adopted| && s.adopted[i] == (run, row);
      assert rs[i] == run && rs[i] in rs;
      assert ContentsOf(s, AdoptedRow) == rs;
    }
  }

  lemma NoEndsYet(p: Place, run: OrphanRun)
    requires IsEnd(p)
    ensures !At(Run(Initial, []), run, p) && !EndedAs([], p, run)
  {
    assert ContentsOf(Initial, p) == [];
  }

  /** In every run of steps, each run that has come to an end came to it in the one way that leads
      there, and every run to which that happened is there: in the unassigned logs exactly the runs
      whose goal, not a millisecond early or more, popped them as the oldest still in time and was
      logged; discarded exactly those whose goal was; expired exactly those a trigger came too late
      for and reported; dismissed exactly those dismissed; and adopted exactly those stamped. */
  lemma {:induction false} FatesExactly(steps: seq<Step>, p: Place, run: OrphanRun)
    requires IsEnd(p)
    ensures At(Run(Initial, steps), run, p) <==> EndedAs(steps, p, run)
    decreases |steps|
  {
    if p == AdoptedRow {
      InAdopted(Run(Initial, steps), run);
      forall row ensures (run, row) in Run(Initial, steps).adopted <==> exists j :: AdoptedAt(steps, j, run, row) {
        AdoptedExactly(steps, run, row);
      }
      if row :| (run, row) in Run(Initial, steps).adopted { var j :| AdoptedAt(steps, j, run, row); }
      if j, row :| AdoptedAt(steps, j, run, row) { assert (run, row) in Run(Initial, steps).adopted; }
    } else if steps != [] {
      var k := |steps| - 1;
      FatesExactly(steps[..k], p, run);
      RequestsAreJustified(steps[..k]);
      FifoIncreasing(steps[..k]);
      LastStep(steps);
      assert steps[..|steps|] == steps;
      EarlierStepsSame(steps, p, run);
      if p == UnassignedLog || p == GoalBeforeStart { PairEnds(steps, p, run); } else { OtherEnds(steps, p, run); }
    } else {
      NoEndsYet(p, run);
    }
  }

  // ---------------------------------------------------------------- a goal that cannot be logged

  function Reports(tid: int, n: nat): (steps: seq<Step>) {
    if n == 0 then [] else [Report(tid)] + Reports(tid, n - 1)
  }

  /** The expired runs are reported one by one, and then the goal is paired. */
  lemma {:induction false} ReportsDrain(s: State, tid: int)
    requires tid in s.threads && s.threads[tid].Reporting? && s.threads[tid].after.ThenPair?
    ensures var th := s.threads[tid];
            Run(s, Reports(tid, |th.expired| + 1)) ==
            s.(expired := s.expired + th.expired, threads := s.threads[tid := Pairing(th.after.run, th.after.goalUs)])
    decreases |s.threads[tid].expired|
  {
    var th := s.threads[tid];
    var s' := Apply(s, Report(tid));
    var rest := Reports(tid, |th.expired|);
    assert Reports(tid, |th.expired| + 1) == [Report(tid)] + rest;
    assert ([Report(tid)] + rest)[1..] == rest;
    if th.expired == [] {
      assert s.expired + [] == s.expired;
    } else {
      ReportsDrain(s', tid);
      assert s.expired + [th.expired[0]] + th.expired[1..] == s.expired + th.expired;
    }
  }

  /** A goal request up to its pairing, runs queued meanwhile included: with r the oldest run in time
      for it, it holds r, the runs too old are reported, and the others stay. */
  lemma GoalPops(s: State, tid: int, tUs: int, maxSec: int, newer: seq<OrphanRun>, run: OrphanRun, rest: seq<OrphanRun>, gone: seq<OrphanRun>)
    requires Increasing(s.fifo) && tid !in s.threads && IsOldestInTime(s.fifo, run, tUs, maxSec)
    requires IsInTime(s.fifo, [run] + rest, tUs, maxSec) && IsTooOld(s.fifo, gone, tUs, maxSec)
    ensures var s1 := Apply(s, GoalTrigger(tid, tUs, maxSec));
            Run(s1.(fifo := s1.fifo + newer), Reports(tid, |gone| + 1))
            == s.(fifo := rest + newer, expired := s.expired + gone, threads := s.threads[tid := Pairing(run, tUs)])
  {
    Partition(s.fifo, tUs, maxSec);
    SameRuns(Kept(s.fifo, tUs, maxSec), [run] + rest);
    SameRuns(Pruned(s.fifo, tUs, maxSec), gone);
    var s1 := Apply(s, GoalTrigger(tid, tUs, maxSec));
    assert ([run] + rest)[0] == run && ([run] + rest)[1..] == rest;
    ReportsDrain(s1.(fifo := s1.fifo + newer), tid);
    assert s.threads[tid := Reporting(gone, ThenPair(run, tUs))][tid := Pairing(run, tUs)] == s.threads[tid := Pairing(run, tUs)];
  }

  /** And its end: discarded if the goal is a millisecond or more early; otherwise logged if the log
      can be written; otherwise the FIFO is as it was before the goal, newer runs included. */
  lemma GoalEnds(s: State, tid: int, run: OrphanRun, goalUs: int, rest: seq<OrphanRun>, newer: seq<OrphanRun>, reply: StoreReply)
    requires tid in s.threads && s.threads[tid] == Pairing(run, goalUs) && s.fifo == rest + newer
    requires Increasing([run] + rest) && (forall n :: n in newer ==> run.id < n.id) && (forall r, n :: r in rest && n in newer ==> r.id < n.id)
    ensures var s' := Apply(s, Pair(tid, reply)); var idle := s.threads - {tid};
            s' == if goalUs - run.tStart <= -1000 then s.(discarded := s.discarded + [run], threads := idle)
                  else if reply == Succeeded then s.(logged := s.logged + [run], threads := idle)
                  else s.(fifo := [run] + rest + newer, threads := idle)
  {
    EarlyIs(run, goalUs);
    var kept := [run] + rest;
    assert IndexOf(kept, run.id) == 0 && Without(kept, run.id) == rest;
    TakeThenRestore(kept, run.id, newer);
  }

  /** A start request uninterrupted: the runs too old are reported, the new one goes last. */
  lemma StartAlone(s: State, tid: int, tUs: int, atMs: int, maxSec: int, rest: seq<OrphanRun>, gone: seq<OrphanRun>)
    requires Increasing(s.fifo) && tid !in s.threads
    requires IsInTime(s.fifo, rest, tUs, maxSec) && IsTooOld(s.fifo, gone, tUs, maxSec)
    ensures var run := OrphanRun(s.orphanSeq + 1, tUs, atMs);
            Run(Apply(s, StartTrigger(tid, tUs, atMs, maxSec)), Reports(tid, |gone| + 1))
            == s.(fifo := rest + [run], orphanSeq := s.orphanSeq + 1, queued := s.queued + [run], expired := s.expired + gone)
  {
    Partition(s.fifo, tUs, maxSec);
    SameRuns(Kept(s.fifo, tUs, maxSec), rest);
    SameRuns(Pruned(s.fifo, tUs, maxSec), gone);
    ReportsEnd(Apply(s, StartTrigger(tid, tUs, atMs, maxSec)), tid);
    assert s.threads[tid := Reporting(gone, NothingMore)] - {tid} == s.threads;
  }

  lemma {:induction false} ReportsEnd(s: State, tid: int)
    requires tid in s.threads && s.threads[tid].Reporting? && s.threads[tid].after == NothingMore
    ensures var th := s.threads[tid];
            Run(s, Reports(tid, |th.expired| + 1)) == s.(expired := s.expired + th.expired, threads := s.threads - {tid})
    decreases |s.threads[tid].expired|
  {
    var th := s.threads[tid];
    var s' := Apply(s, Report(tid));
    var more := Reports(tid, |th.expired|);
    assert Reports(tid, |th.expired| + 1) == [Report(tid)] + more;
    assert ([Report(tid)] + more)[1..] == more;
    if th.expired == [] {
      assert s.expired + [] == s.expired;
    } else {
      ReportsEnd(s', tid);
      assert s.expired + [th.expired[0]] + th.expired[1..] == s.expired + th.expired;
    }
  }

  /** An adoption whose store calls succeed, runs queued meanwhile included: the run with that id
      leaves the FIFO and is adopted for that row. */
  lemma AdoptionAlone(s: State, tid: int, run: OrphanRun, row: int, newer: seq<OrphanRun>, rest: seq<OrphanRun>)
    requires Increasing(s.fifo) && tid !in s.threads && run in s.fifo
    requires Increasing(rest) && forall r :: r in rest <==> r in s.fifo && r != run
    ensures var s1 := Apply(s, AdoptTake(tid, run.id, row));
            Run(s1.(fifo := s1.fifo + newer), [AdoptClaim(tid, Succeeded), AdoptStamp(tid, Succeeded)])
            == s.(fifo := rest + newer, adopted := s.adopted + [(run, row)])
  {
    var k :| 0 <= k < |s.fifo| && s.fifo[k] == run;
    IndexOfPresent(s.fifo, k);
    TakeFacts(s.fifo, run.id);
    SameRuns(Without(s.fifo, run.id), rest);
    var s1 := Apply(s, AdoptTake(tid, run.id, row));
    var s2 := s1.(fifo := s1.fifo + newer);
    var steps := [AdoptClaim(tid, Succeeded), AdoptStamp(tid, Succeeded)];
    assert steps[1..] == [AdoptStamp(tid, Succeeded)] && steps[1..][1..] == [];
    var s3 := Apply(s2, steps[0]);
    assert Run(s3, steps[1..]) == Apply(s3, steps[1]);
    assert s.threads[tid := AdoptTaken(run, row)][tid := AdoptClaimed(run, row)] - {tid} == s.threads;
  }

  /** A dismissal takes the run with that id out of the FIFO, if it is there, and nothing else. */
  lemma DismissAlone(s: State, tid: int, run: OrphanRun, rest: seq<OrphanRun>)
    requires Increasing(s.fifo) && tid !in s.threads && run in s.fifo
    requires Increasing(rest) && forall r :: r in rest <==> r in s.fifo && r != run
    ensures Apply(s, Dismiss(tid, run.id)) == s.(fifo := rest, dismissed := s.dismissed + [run])
  {
    var k :| 0 <= k < |s.fifo| && s.fifo[k] == run;
    IndexOfPresent(s.fifo, k);
    TakeFacts(s.fifo, run.id);
    SameRuns(Without(s.fifo, run.id), rest);
  }
}
