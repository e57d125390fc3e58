/** Triggers pair by queue id, cars leave in launch order. The program keeps no launch order; here
    it is history beside the course protocol, to say exactly when the two agree
    (internal/web/sensor.go, internal/web/admin_course.go). */
module LaunchOrder {
  import opened Common
  import opened QueueTable
  import opened Course
  import opened CourseInv
  import opened CourseRuns
  import QueueOrder

  // ---------------------------------------------------------------- the order of launches

  predicate IsOnCourse(t: Table, q: int) {
    q in t && t[q].status == OnCourse
  }

  function StillOn(order: seq<int>, t: Table): (out: seq<int>) {
    if order == [] then []
    else if IsOnCourse(t, order[0]) then [order[0]] + StillOn(order[1..], t)
    else StillOn(order[1..], t)
  }

  /** The row a step launches, if it launches one: the head of the active event's waiting list. */
  ghost function Newcomer(s: State, step: Step): (q: Option<int>)
    requires Inv(s)
  {
    if (step.DoLaunch? || step.DoSelfLaunch? || step.DoAdopt?) && Apply(s, step).reply == Ok
    then Some(Waitlist(s.queue, s.active.value)[0])
    else None
  }

  /** Rows that left the course leave the order; a launched one joins it at the end. */
  ghost function NextOrder(s: State, order: seq<int>, step: Step): (order': seq<int>)
    requires Inv(s)
  {
    StillOn(order, Apply(s, step).s.queue) + match Newcomer(s, step) case Some(q) => [q] case None => []
  }

  /** `order` lists exactly the rows on course, each once. */
  ghost predicate Lists(order: seq<int>, t: Table) {
    && (forall q :: q in order <==> IsOnCourse(t, q))
    && (forall i, j :: 0 <= i < j < |order| ==> order[i] != order[j])
  }

  predicate Ascending(ids: seq<int>) {
    forall i, j :: 0 <= i < j < |ids| ==> ids[i] < ids[j]
  }

  lemma {:induction false} StillOnKeeps(order: seq<int>, t: Table)
    requires forall i, j :: 0 <= i < j < |order| ==> order[i] != order[j]
    ensures var out := StillOn(order, t);
            && (forall q :: q in out <==> q in order && IsOnCourse(t, q))
            && (forall i, j :: 0 <= i < j < |out| ==> out[i] != out[j])
            && (Ascending(order) ==> Ascending(out))
  {
    if order != [] {
      var head, tail := order[0], order[1..];
      StillOnKeeps(tail, t);
      var out := StillOn(tail, t);
      assert order == [head] + tail;
      forall k | 0 <= k < |out| ensures out[k] != head && (Ascending(order) ==> head < out[k]) {
        var x := out[k];
        assert x in out && x in tail;
        var m :| 0 <= m < |tail| && tail[m] == x;
        assert order[m + 1] == x;
      }
    }
  }

  lemma {:induction false} StillOnAll(order: seq<int>, t: Table)
    requires forall i :: 0 <= i < |order| ==> IsOnCourse(t, order[i])
    ensures StillOn(order, t) == order
  {
    if order != [] {
      StillOnAll(order[1..], t);
      assert order == [order[0]] + order[1..];
    }
  }

  // ---------------------------------------------------------------- only a launch puts a row on course

  ghost predicate NoNewcomer(t: Table, t': Table) {
    forall q :: IsOnCourse(t', q) ==> IsOnCourse(t, q)
  }

  lemma StampsBringNobody(s: State, t: int, now: int, c: Option<int>)
    requires Inv(s)
    ensures NoNewcomer(s.queue, SensorStart(s, t, now).s.queue) && NoNewcomer(s.queue, ManualStart(s, c, now).s.queue)
  {
    StampIsOneRow(s, t, now, c);
  }

  lemma UndoStartBringsNobody(s: State, q: int)
    requires q in s.queue
    ensures NoNewcomer(s.queue, UndoStart(s, q).s.queue)
  {
    if s.queue[q].status == OnCourse && q !in s.pending {
      var t := Cleaned(s.queue, q);
      assert t == s.queue[q := s.queue[q].(tStart := None, pt := 0, mc := false)];
      ReturnedTouches(t, q);
      forall x | IsOnCourse(QueueOrder.Returned(t, q), x) ensures IsOnCourse(s.queue, x) { }
    }
  }

  lemma SelfLaunchUndoBringsNobody(s: State, driver: int)
    ensures NoNewcomer(s.queue, SelfLaunchUndo(s, driver).s.queue)
  {
    if s.active.Some? {
      var ids := ListQueue(s.queue, s.active.value, OnCourse);
      FirstOfDriverIsListed(s.queue, ids, driver);
      if FirstOfDriver(s.queue, ids, driver).Some? { UndoStartBringsNobody(s, FirstOfDriver(s.queue, ids, driver).value); }
    }
  }

  lemma QueueAddBringsNobody(s: State, driver: int, vehicle: int)
    ensures NoNewcomer(s.queue, QueueAdd(s, driver, vehicle).s.queue)
    ensures NoNewcomer(s.queue, MyQueueCancel(s, driver).s.queue)
  {
  }

  lemma QueueEditsBringNobody(s: State, q: int, p: real, e: int)
    ensures NoNewcomer(s.queue, QueueReorder(s, q, p).s.queue)
    ensures NoNewcomer(s.queue, EventClose(s, e).s.queue)
    ensures NoNewcomer(s.queue, QueueCancel(s, q).s.queue) && NoNewcomer(s.queue, CancelById(s, q).s.queue)
  {
    ReorderBringsNobody(s.queue, q, p);
  }

  lemma ReorderBringsNobody(t: Table, q: int, p: real)
    ensures q in t ==> NoNewcomer(t, Reordered(t, q, p))
  {
    if q in t { QueueOrder.ReorderTouches(t, q, p); }
  }

  lemma CourseEditsBringNobody(s: State, q: int, delta: int)
    ensures NoNewcomer(s.queue, Confirm(s, q).s.queue)
    ensures NoNewcomer(s.queue, SetPt(s, q, delta).s.queue)
    ensures NoNewcomer(s.queue, ToggleMc(s, q).s.queue)
  {
  }

  lemma OnlyLaunchesAdd(s: State, step: Step)
    requires Inv(s) && Newcomer(s, step) == None
    ensures NoNewcomer(s.queue, Apply(s, step).s.queue)
  {
    if step.DoSensorStart? {
      StampsBringNobody(s, step.tUs, step.now, None);
    } else if step.DoManualStart? {
      StampsBringNobody(s, 0, step.now, step.clientMs);
    } else if step.DoLaunch? || step.DoSelfLaunch? || step.DoAdopt? {
      RefusedChangesNothing(s, step);
    } else if step.DoSelfLaunchUndo? {
      SelfLaunchUndoBringsNobody(s, step.driver);
    } else if step.DoUndoStart? {
      if step.q in s.queue { UndoStartBringsNobody(s, step.q); }
    } else if step.DoQueueAdd? || step.DoMyQueueAdd? {
      QueueAddBringsNobody(s, step.driver, step.vehicle);
    } else if step.DoMyQueueCancel? {
      QueueAddBringsNobody(s, step.driver, 0);
    } else if step.DoQueueReorder? {
      QueueEditsBringNobody(s, step.q, step.p, 0);
    } else if step.DoEventClose? {
      QueueEditsBringNobody(s, 0, 0.0, step.e);
    } else if step.DoQueueCancel? || step.DoCancel? {
      QueueEditsBringNobody(s, step.q, 0.0, 0);
    } else if step.DoConfirm? || step.DoSetPt? || step.DoToggleMc? {
      CourseEditsBringNobody(s, step.q, if step.DoSetPt? then step.delta else 0);
    } else if step.DoFinishOldest? || step.DoFinishById? || step.DoUndoGoal? || step.DoSensorGoal? {
      FinishesTouchNoRow(s, step);
    } else {
      OthersTouchNoRow(s, step);
    }
  }

  lemma LaunchAddsHead(s: State, step: Step)
    requires Inv(s) && Newcomer(s, step).Some?
    ensures var q := Newcomer(s, step).value; var t' := Apply(s, step).s.queue;
            && s.active.Some? && Waitlist(s.queue, s.active.value) != [] && q == Waitlist(s.queue, s.active.value)[0]
            && !IsOnCourse(s.queue, q) && IsOnCourse(t', q)
            && (forall x :: x != q ==> (IsOnCourse(t', x) <==> IsOnCourse(s.queue, x)))
  {
    var e := s.active.value;
    HeadWaits(s.queue, e);
    var q := Waitlist(s.queue, e)[0];
    LaunchedIs(s.queue, q, Apply(s, step).s.queue[q].tStart);
  }

  /** The history is sound: after every step it lists exactly the rows on course. */
  lemma StepLists(s: State, order: seq<int>, step: Step)
    requires Inv(s) && Lists(order, s.queue)
    ensures Lists(NextOrder(s, order, step), Apply(s, step).s.queue)
  {
    var t' := Apply(s, step).s.queue;
    StillOnKeeps(order, t');
    if Newcomer(s, step).Some? {
      LaunchAddsHead(s, step);
    } else {
      OnlyLaunchesAdd(s, step);
    }
  }

  ghost function OrderAfter(s: State, order: seq<int>, steps: seq<Step>): (order': seq<int>)
    requires Inv(s)
    decreases |steps|
  {
    if steps == [] then order
    else
      StepKeeps(s, steps[0]);
      OrderAfter(Apply(s, steps[0]).s, NextOrder(s, order, steps[0]), steps[1..])
  }

  lemma {:induction false} RunLists(s: State, order: seq<int>, steps: seq<Step>)
    requires Inv(s) && Lists(order, s.queue)
    ensures Lists(OrderAfter(s, order, steps), Run(s, steps).queue)
    decreases |steps|
  {
    if steps != [] {
      StepKeeps(s, steps[0]);
      StepLists(s, order, steps[0]);
      RunLists(Apply(s, steps[0]).s, NextOrder(s, order, steps[0]), steps[1..]);
    }
  }

  // ---------------------------------------------------------------- one trigger

  function ReadySet(s: State, e: int): (qs: set<int>) {
    set q | q in s.queue && s.queue[q].event == e && s.queue[q].status == OnCourse && s.queue[q].tStart == None
  }

  function RunningSet(s: State, e: int): (qs: set<int>) {
    set q | q in s.queue && s.queue[q].event == e && s.queue[q].status == OnCourse && s.queue[q].tStart.Some? && q !in s.pending
  }

  /** Those of the order that are in the set, in order. */
  function Among(order: seq<int>, qs: set<int>): (out: seq<int>) {
    if order == [] then []
    else if order[0] in qs then [order[0]] + Among(order[1..], qs)
    else Among(order[1..], qs)
  }

  lemma {:induction false} AmongMembers(order: seq<int>, qs: set<int>)
    requires forall q :: q in qs ==> q in order
    ensures forall q :: q in Among(order, qs) <==> q in qs
    ensures Ascending(order) ==> Ascending(Among(order, qs))
  {
    AmongHolds(order, qs);
  }

  lemma {:induction false} AmongHolds(order: seq<int>, qs: set<int>)
    ensures forall q :: q in Among(order, qs) <==> q in qs && q in order
    ensures Ascending(order) ==> Ascending(Among(order, qs))
  {
    if order != [] {
      var head, tail := order[0], order[1..];
      AmongHolds(tail, qs);
      assert order == [head] + tail;
      var out := Among(tail, qs);
      forall k | 0 <= k < |out| && Ascending(order) ensures head < out[k] {
        var x := out[k];
        assert x in out && x in tail;
        var m :| 0 <= m < |tail| && tail[m] == x;
        assert order[m + 1] == x;
      }
    }
  }

  lemma {:induction false} AmongDistinct(order: seq<int>, qs: set<int>)
    requires forall i, j :: 0 <= i < j < |order| ==> order[i] != order[j]
    ensures forall i, j :: 0 <= i < j < |Among(order, qs)| ==> Among(order, qs)[i] != Among(order, qs)[j]
  {
    if order != [] {
      var head, tail := order[0], order[1..];
      AmongDistinct(tail, qs);
      AmongHolds(tail, qs);
      var out := Among(tail, qs);
      forall k | 0 <= k < |out| ensures out[k] != head {
        var x := out[k];
        assert x in out && x in tail;
        var m :| 0 <= m < |tail| && tail[m] == x;
        assert order[m + 1] == x;
      }
      assert Among(order, qs) == if head in qs then [head] + out else out;
    }
  }

  /** The least of a set is the first of it in launch order exactly when no later one is smaller. */
  lemma LeastIsFirst(order: seq<int>, qs: set<int>, least: int)
    requires forall q :: q in qs ==> q in order
    requires forall i, j :: 0 <= i < j < |order| ==> order[i] != order[j]
    requires least in qs && forall q :: q in qs ==> least <= q
    ensures var out := Among(order, qs);
            && out != [] && (forall i :: 0 <= i < |out| ==> out[i] in qs)
            && (out[0] == least <==> forall i :: 0 < i < |out| ==> out[0] < out[i])
  {
    var out := Among(order, qs);
    AmongMembers(order, qs);
    AmongDistinct(order, qs);
    assert least in out;
    var k :| 0 <= k < |out| && out[k] == least;
    forall i | 0 <= i < |out| ensures out[i] in qs { assert out[i] in out; }
  }

  /** A start trigger stamps the READY car that was launched first if and only if no READY car
      launched after it has a smaller queue id. */
  lemma StartGoesToFirstLaunched(s: State, order: seq<int>, tUs: int, now: int)
    requires Inv(s) && s.active.Some? && Lists(order, s.queue)
    requires ReadySet(s, s.active.value) != {}
    ensures var ready := Among(order, ReadySet(s, s.active.value));
            && ready != [] && ready[0] in s.queue
            && var q := SensorStart(s, tUs, now).s.queue;
               && ready[0] in q
               && (q[ready[0]].tStart == Some(tUs) <==> forall i :: 0 < i < |ready| ==> ready[0] < ready[i])
  {
    var e := s.active.value;
    var rs := ReadySet(s, e);
    LeastReady(s, e);
    var q := FirstReady(s.queue, ListQueue(s.queue, e, OnCourse)).value;
    forall x | x in rs ensures x in order { assert IsOnCourse(s.queue, x); }
    LeastIsFirst(order, rs, q);
    assert Among(order, rs)[0] in rs;
  }

  lemma LeastRunning(s: State, tUs: int, now: int) returns (q: int)
    requires Inv(s) && s.active.Some? && RunningSet(s, s.active.value) != {}
    ensures q in RunningSet(s, s.active.value) && forall x :: x in RunningSet(s, s.active.value) ==> q <= x
    ensures SensorGoal(s, tUs, now) == FinishCar(s, q, tUs, Sensor, now)
  {
    var e := s.active.value;
    var rs := RunningSet(s, e);
    HasElement(rs);
    var any :| any in rs;
    assert Running(s, e, any);
    GoalPairsWithOldestRunning(s, tUs, now);
    q :| Running(s, e, q) && (forall x :: Running(s, e, x) ==> q <= x) && SensorGoal(s, tUs, now) == FinishCar(s, q, tUs, Sensor, now);
    assert q in rs;
    forall x | x in rs ensures q <= x { assert Running(s, e, x); }
  }

  /** A goal trigger that the car launched first could take finishes it if and only if no RUNNING
      car launched after it has a smaller queue id. */
  lemma GoalGoesToFirstLaunched(s: State, order: seq<int>, tUs: int, now: int)
    requires Inv(s) && s.active.Some? && Lists(order, s.queue)
    requires RunningSet(s, s.active.value) != {}
    ensures var running := Among(order, RunningSet(s, s.active.value));
            && running != [] && running[0] in s.queue && s.queue[running[0]].tStart.Some?
            && (tUs - s.queue[running[0]].tStart.value > -1000 ==>
                  (running[0] in SensorGoal(s, tUs, now).s.pending <==> forall i :: 0 < i < |running| ==> running[0] < running[i]))
  {
    var rs := RunningSet(s, s.active.value);
    var q := LeastRunning(s, tUs, now);
    forall x | x in rs ensures x in order { assert IsOnCourse(s.queue, x); }
    LeastIsFirst(order, rs, q);
    assert Among(order, rs)[0] in rs;
    FinishAcceptedExactly(s, q, tUs, Sensor, now);
  }

  // ---------------------------------------------------------------- all the READY cars

  /** The rows that successive start triggers stamp. */
  ghost function StampedInTurn(s: State, times: seq<int>, now: int): (qs: seq<int>)
    requires Inv(s) && s.active.Some?
    decreases |times|
  {
    if times == [] then []
    else
      var ids := ListQueue(s.queue, s.active.value, OnCourse);
      match FirstReady(s.queue, ids)
      case None => []
      case Some(q) =>
        SensorStartKeeps(s, times[0], now);
        [q] + StampedInTurn(SensorStart(s, times[0], now).s, times[1..], now)
  }

  lemma StampLeavesReady(s: State, e: int, q: int, tUs: int)
    requires q in ReadySet(s, e)
    ensures ReadySet(s.(queue := WithStart(s.queue, q, Some(tUs))), e) == ReadySet(s, e) - {q}
  {
    var s' := s.(queue := WithStart(s.queue, q, Some(tUs)));
    forall x ensures x in ReadySet(s', e) <==> x in ReadySet(s, e) && x != q { }
  }

  lemma LeastReady(s: State, e: int)
    requires ReadySet(s, e) != {}
    ensures var f := FirstReady(s.queue, ListQueue(s.queue, e, OnCourse));
            f.Some? && f.value in ReadySet(s, e) && forall x :: x in ReadySet(s, e) ==> f.value <= x
  {
    var rs := ReadySet(s, e);
    var ids := ListQueue(s.queue, e, OnCourse);
    HasElement(rs);
    var any :| any in rs;
    FirstReadyIsOldest(s.queue, ids);
    assert forall x :: x in rs ==> x in Selected(s.queue, e, OnCourse) && x in ids;
    assert any in ids;
    Listed(s.queue, e, OnCourse, FirstReady(s.queue, ids).value);
  }

  /** One trigger takes the least id out of the READY set and leaves the rest of it alone. */
  lemma StampTakesLeast(s: State, tUs: int, now: int)
    requires Inv(s) && s.active.Some? && ReadySet(s, s.active.value) != {}
    ensures var e := s.active.value; var f := FirstReady(s.queue, ListQueue(s.queue, e, OnCourse)); var s' := SensorStart(s, tUs, now).s;
            && f.Some? && f.value in ReadySet(s, e) && (forall x :: x in ReadySet(s, e) ==> f.value <= x)
            && s'.active == s.active && ReadySet(s', e) == ReadySet(s, e) - {f.value}
  {
    var e := s.active.value;
    LeastReady(s, e);
    StampLeavesReady(s, e, FirstReady(s.queue, ListQueue(s.queue, e, OnCourse)).value, tUs);
  }

  lemma {:induction false} HeadTaken(order: seq<int>, qs: set<int>, q: int)
    requires forall i, j :: 0 <= i < j < |order| ==> order[i] != order[j]
    requires Among(order, qs) != [] && Among(order, qs)[0] == q
    ensures Among(order, qs - {q}) == Among(order, qs)[1..]
    decreases |order|
  {
    if order[0] in qs {
      forall k | 0 <= k < |order[1..]| ensures order[1..][k] != q { assert order[k + 1] != order[0]; }
      AmongIgnores(order[1..], qs, q);
      assert Among(order, qs)[1..] == Among(order[1..], qs);
    } else {
      HeadTaken(order[1..], qs, q);
    }
  }

  lemma {:induction false} AmongIgnores(order: seq<int>, qs: set<int>, q: int)
    requires q !in order
    ensures Among(order, qs - {q}) == Among(order, qs)
  {
    if order != [] {
      assert order == [order[0]] + order[1..];
      var x := order[0];
      assert x in order;
      AmongIgnores(order[1..], qs, q);
    }
  }

  lemma ConsAscending(q: int, qs: seq<int>)
    requires Ascending(qs) && forall x :: x in qs ==> q < x
    ensures Ascending([q] + qs)
  {
    assert forall i :: 0 <= i < |qs| ==> qs[i] in qs;
    assert forall i :: 0 < i < |[q] + qs| ==> ([q] + qs)[i] == qs[i - 1];
  }

  lemma {:induction false} StampsAscend(s: State, times: seq<int>, now: int)
    requires Inv(s) && s.active.Some?
    ensures Ascending(StampedInTurn(s, times, now))
    ensures forall q :: q in StampedInTurn(s, times, now) ==> q in ReadySet(s, s.active.value)
    decreases |times|
  {
    var e := s.active.value;
    if times != [] && FirstReady(s.queue, ListQueue(s.queue, e, OnCourse)).Some? {
      var q := FirstReady(s.queue, ListQueue(s.queue, e, OnCourse)).value;
      FirstIsReady(s, e);
      StampTakesLeast(s, times[0], now);
      SensorStartKeeps(s, times[0], now);
      var s' := SensorStart(s, times[0], now).s;
      StampsAscend(s', times[1..], now);
      ConsAscending(q, StampedInTurn(s', times[1..], now));
    }
  }

  lemma FirstIsReady(s: State, e: int)
    requires FirstReady(s.queue, ListQueue(s.queue, e, OnCourse)).Some?
    ensures FirstReady(s.queue, ListQueue(s.queue, e, OnCourse)).value in ReadySet(s, e)
  {
    var ids := ListQueue(s.queue, e, OnCourse);
    FirstReadyIsListed(s.queue, ids);
    Listed(s.queue, e, OnCourse, FirstReady(s.queue, ids).value);
  }

  lemma {:induction false} AscendingIsFollowed(s: State, order: seq<int>, times: seq<int>, now: int)
    requires Inv(s) && s.active.Some?
    requires forall i, j :: 0 <= i < j < |order| ==> order[i] != order[j]
    requires forall q :: q in ReadySet(s, s.active.value) ==> q in order
    requires |times| == |Among(order, ReadySet(s, s.active.value))| && Ascending(Among(order, ReadySet(s, s.active.value)))
    ensures StampedInTurn(s, times, now) == Among(order, ReadySet(s, s.active.value))
    decreases |times|
  {
    var e := s.active.value;
    var ready := Among(order, ReadySet(s, e));
    AmongMembers(order, ReadySet(s, e));
    if times != [] {
      var q := ready[0];
      assert q in ready;
      StampTakesLeast(s, times[0], now);
      SensorStartKeeps(s, times[0], now);
      var f := FirstReady(s.queue, ListQueue(s.queue, e, OnCourse)).value;
      assert f in ready;
      var k :| 0 <= k < |ready| && ready[k] == f;
      assert f == q;
      HeadTaken(order, ReadySet(s, e), q);
      assert forall i :: 0 <= i < |ready[1..]| ==> ready[1..][i] == ready[i + 1];
      AscendingIsFollowed(SensorStart(s, times[0], now).s, order, times[1..], now);
    }
  }

  /** As many start triggers as there are READY cars stamp them in the order they were launched in
      if and only if their queue ids stand in launch order. */
  lemma StartsFollowLaunches(s: State, order: seq<int>, times: seq<int>, now: int)
    requires Inv(s) && s.active.Some? && Lists(order, s.queue)
    requires |times| == |Among(order, ReadySet(s, s.active.value))|
    ensures StampedInTurn(s, times, now) == Among(order, ReadySet(s, s.active.value))
            <==> Ascending(Among(order, ReadySet(s, s.active.value)))
  {
    StampsAscend(s, times, now);
    forall q | q in ReadySet(s, s.active.value) ensures q in order { assert IsOnCourse(s.queue, q); }
    if Ascending(Among(order, ReadySet(s, s.active.value))) { AscendingIsFollowed(s, order, times, now); }
  }

  // ---------------------------------------------------------------- the check at each launch

  /** If the step launches a row, its id is above every id on course. */
  ghost predicate HeadIsAbove(s: State, step: Step)
    requires Inv(s)
  {
    Newcomer(s, step).Some? ==> forall x :: IsOnCourse(s.queue, x) ==> x < Newcomer(s, step).value
  }

  /** Every launch of the run takes a head whose id is above every id on course. */
  ghost predicate GuardedLaunches(s: State, order: seq<int>, steps: seq<Step>)
    requires Inv(s)
    decreases |steps|
  {
    steps == [] ||
    (StepKeeps(s, steps[0]);
     HeadIsAbove(s, steps[0])
     && GuardedLaunches(Apply(s, steps[0]).s, NextOrder(s, order, steps[0]), steps[1..]))
  }

  /** All along the run, the ids on course stand in launch order. */
  ghost predicate AscendingAlong(s: State, order: seq<int>, steps: seq<Step>)
    requires Inv(s)
    decreases |steps|
  {
    && Ascending(order)
    && (steps == [] ||
        (StepKeeps(s, steps[0]);
         AscendingAlong(Apply(s, steps[0]).s, NextOrder(s, order, steps[0]), steps[1..])))
  }

  lemma AppendAscends(order: seq<int>, q: int)
    ensures Ascending(order + [q]) <==> Ascending(order) && forall x :: x in order ==> x < q
  {
    var next := order + [q];
    assert forall i :: 0 <= i < |order| ==> next[i] == order[i];
    assert next[|order|] == q;
    assert forall i :: 0 <= i < |order| ==> order[i] in order;
    if Ascending(next) {
      forall i, j | 0 <= i < j < |order| ensures order[i] < order[j] { assert next[i] < next[j]; }
      forall x | x in order ensures x < q {
        var k :| 0 <= k < |order| && order[k] == x;
        assert next[k] < next[|order|];
      }
    }
  }

  lemma JoinsOrder(s: State, order: seq<int>, step: Step, q: int)
    requires Inv(s) && Newcomer(s, step) == Some(q)
    requires forall i :: 0 <= i < |order| ==> IsOnCourse(Apply(s, step).s.queue, order[i])
    ensures NextOrder(s, order, step) == order + [q]
  {
    StillOnAll(order, Apply(s, step).s.queue);
  }

  lemma LaunchKeepsAscending(s: State, order: seq<int>, step: Step)
    requires Inv(s) && Lists(order, s.queue) && Ascending(order)
    ensures Ascending(NextOrder(s, order, step)) <==> HeadIsAbove(s, step)
  {
    var t' := Apply(s, step).s.queue;
    if Newcomer(s, step).Some? {
      var q := Newcomer(s, step).value;
      LaunchAddsHead(s, step);
      forall i | 0 <= i < |order| ensures IsOnCourse(t', order[i]) { assert order[i] in order; }
      JoinsOrder(s, order, step, q);
      AppendAscends(order, q);
    } else {
      StillOnKeeps(order, t');
      assert NextOrder(s, order, step) == StillOn(order, t');
    }
  }

  /** The ids on course stand in launch order all along a run if and only if each launch takes a
      head whose id is above every id on course: a check a caller can make beforehand. */
  lemma {:induction false} GuardIsExact(s: State, order: seq<int>, steps: seq<Step>)
    requires Inv(s) && Lists(order, s.queue) && Ascending(order)
    ensures AscendingAlong(s, order, steps) <==> GuardedLaunches(s, order, steps)
    decreases |steps|
  {
    if steps != [] {
      StepKeeps(s, steps[0]);
      StepLists(s, order, steps[0]);
      LaunchKeepsAscending(s, order, steps[0]);
      if Ascending(NextOrder(s, order, steps[0])) {
        GuardIsExact(Apply(s, steps[0]).s, NextOrder(s, order, steps[0]), steps[1..]);
      }
    }
  }

  lemma {:induction false} EndsAscending(s: State, order: seq<int>, steps: seq<Step>)
    requires Inv(s) && AscendingAlong(s, order, steps)
    ensures Ascending(OrderAfter(s, order, steps))
    decreases |steps|
  {
    if steps != [] {
      StepKeeps(s, steps[0]);
      EndsAscending(Apply(s, steps[0]).s, NextOrder(s, order, steps[0]), steps[1..]);
    }
  }

  /** After every run whose launches pass that check, a start trigger stamps the READY car launched
      first, and a goal trigger that the RUNNING car launched first could take finishes it. */
  lemma GuardedTriggersFollowLaunches(steps: seq<Step>, tUs: int, now: int)
    requires Inv(Empty) && GuardedLaunches(Empty, [], steps)
    ensures var s := Run(Empty, steps); var order := OrderAfter(Empty, [], steps);
            && Lists(order, s.queue)
            && (s.active.Some? ==>
                  var ready, running := Among(order, ReadySet(s, s.active.value)), Among(order, RunningSet(s, s.active.value));
                  && (ready != [] ==> ready[0] in SensorStart(s, tUs, now).s.queue && SensorStart(s, tUs, now).s.queue[ready[0]].tStart == Some(tUs))
                  && (running != [] && running[0] in s.queue && s.queue[running[0]].tStart.Some? && tUs - s.queue[running[0]].tStart.value > -1000 ==>
                        running[0] in SensorGoal(s, tUs, now).s.pending))
  {
    var s, order := Run(Empty, steps), OrderAfter(Empty, [], steps);
    RunLists(Empty, [], steps);
    GuardIsExact(Empty, [], steps);
    EndsAscending(Empty, [], steps);
    if s.active.Some? {
      var e := s.active.value;
      AmongHolds(order, ReadySet(s, e));
      AmongHolds(order, RunningSet(s, e));
      var ready, running := Among(order, ReadySet(s, e)), Among(order, RunningSet(s, e));
      if ready != [] {
        assert ready[0] in ready;
        StartGoesToFirstLaunched(s, order, tUs, now);
      }
      if running != [] {
        assert running[0] in running;
        GoalGoesToFirstLaunched(s, order, tUs, now);
      }
    }
  }

  // ---------------------------------------------------------------- the smallest input where they differ

  const SensorEvent: Event := Event(true, false, 600)

  /** Two entries, the second moved to the front. */
  const TwoEntries: seq<Step> := [DoEventCreate(SensorEvent), DoQueueAdd(1, 1), DoQueueAdd(2, 2), DoQueueReorder(2, 0.0)]

  lemma FirstEntry(s: State)
    requires s == EventCreate(Empty, SensorEvent).s
    ensures s.active == Some(1) && s.queue == map[] && s.nextQueue == 1 && s.events == map[1 := SensorEvent]
    ensures var r := QueueAdd(s, 1, 1);
            r.reply == Ok && Waitlist(r.s.queue, 1) == [1] && r.s.queue == map[1 := Row(1, 1, 1, 1.0, Waiting, None, 0, false)]
  {
    var t: Table := map[];
    assert Selected(t, 1, Waiting) == {};
    ListingIs(t, 1, Waiting, []);
    QueueOrder.EnqueueAppends(s.queue, 1, 1, 1, 1);
  }

  lemma SecondEntry(s: State)
    requires s.active == Some(1) && s.nextQueue == 2 && s.queue == map[1 := Row(1, 1, 1, 1.0, Waiting, None, 0, false)]
    requires Waitlist(s.queue, 1) == [1]
    ensures var r := QueueAdd(s, 2, 2);
            && r.reply == Ok && Waitlist(r.s.queue, 1) == [1, 2]
            && r.s.queue == map[1 := s.queue[1], 2 := Row(1, 2, 2, 2.0, Waiting, None, 0, false)]
  {
    QueueOrder.EnqueueAppends(s.queue, 2, 1, 2, 2);
  }

  lemma MovedToFront(t: Table)
    requires t == map[1 := Row(1, 1, 1, 1.0, Waiting, None, 0, false), 2 := Row(1, 2, 2, 2.0, Waiting, None, 0, false)]
    requires Waitlist(t, 1) == [1, 2]
    ensures Waitlist(Reordered(t, 2, 0.0), 1) == [2, 1]
    ensures forall q :: !IsOnCourse(Reordered(t, 2, 0.0), q)
  {
    QueueOrder.ReorderMoves(t, 2, 0.0);
    QueueOrder.ReorderTouches(t, 2, 0.0);
    assert QueueOrder.Removed([1, 2], 2) == [1] by {
      assert [1, 2][1..] == [2] && [2][1..] == [];
    }
    assert QueueOrder.Place(t, [1], 0.0, 2) == 0;
    assert QueueOrder.Inserted([1], 0, 2) == [2, 1];
  }

  lemma OneLaunch(s: State, e: int, q: int, rest: seq<int>, now: int)
    requires Inv(s) && s.active == Some(e) && s.events[e].sensorMode && Waitlist(s.queue, e) == [q] + rest
    ensures var s1 := Apply(s, DoLaunch(None, now)).s;
            && Inv(s1) && s1.active == s.active && s1.events == s.events && Newcomer(s, DoLaunch(None, now)) == Some(q)
            && q in s.queue && s.queue[q].event == e && s1.queue == s.queue[q := s.queue[q].(status := OnCourse, tStart := None)]
            && Waitlist(s1.queue, e) == rest
  {
    StepKeeps(s, DoLaunch(None, now));
    HeadWaits(s.queue, e);
    LaunchTakesHead(s.queue, e, None, e);
    LaunchedIs(s.queue, q, None);
    assert ([q] + rest)[1..] == rest;
  }

  /** From the waiting list [hi, lo] two launches put hi on course before lo, and the next start
      trigger goes to lo. */
  lemma LaterLaunchIsStamped(s: State, e: int, hi: int, lo: int, tUs: int, now: int)
    requires Inv(s) && s.active == Some(e) && s.events[e].sensorMode && lo < hi
    requires Waitlist(s.queue, e) == [hi, lo] && forall q :: !IsOnCourse(s.queue, q)
    ensures var s2 := Run(s, [DoLaunch(None, now), DoLaunch(None, now)]);
            && OrderAfter(s, [], [DoLaunch(None, now), DoLaunch(None, now)]) == [hi, lo]
            && s2.active == s.active && ReadySet(s2, e) == {hi, lo}
            && FirstReady(s2.queue, ListQueue(s2.queue, e, OnCourse)) == Some(lo)
  {
    var step := DoLaunch(None, now);
    assert [hi, lo] == [hi] + [lo] && [lo] == [lo] + [];
    OneLaunch(s, e, hi, [lo], now);
    var s1 := Apply(s, step).s;
    OneLaunch(s1, e, lo, [], now);
    var s2 := Apply(s1, step).s;
    assert [step, step][1..] == [step] && [step][1..] == [];
    assert Run(s1, [step]) == Run(s2, []) == s2;
    TwoInOrder(s, s1, s2, step, hi, lo);
    TwoReady(s, s2, e, hi, lo);
    LeastReady(s2, e);
  }

  lemma TwoReady(s: State, s2: State, e: int, hi: int, lo: int)
    requires forall q :: !IsOnCourse(s.queue, q)
    requires hi in s.queue && lo in s.queue && hi != lo && s.queue[hi].event == e && s.queue[lo].event == e
    requires s2.queue == s.queue[hi := s.queue[hi].(status := OnCourse, tStart := None)][lo := s.queue[lo].(status := OnCourse, tStart := None)]
    ensures ReadySet(s2, e) == {hi, lo}
  {
    forall q ensures q in ReadySet(s2, e) <==> q == hi || q == lo {
      assert q != hi && q != lo ==> !IsOnCourse(s.queue, q);
    }
  }

  lemma TwoInOrder(s: State, s1: State, s2: State, step: Step, hi: int, lo: int)
    requires Inv(s) && Inv(s1) && Inv(s2) && s1 == Apply(s, step).s && s2 == Apply(s1, step).s
    requires Newcomer(s, step) == Some(hi) && Newcomer(s1, step) == Some(lo)
    requires IsOnCourse(s2.queue, hi)
    ensures OrderAfter(s, [], [step, step]) == [hi, lo]
  {
    JoinsOrder(s, [], step, hi);
    JoinsOrder(s1, [hi], step, lo);
    assert [] + [hi] == [hi] && [hi] + [lo] == [hi, lo];
    assert [hi][1..] == [];
    assert [step, step][1..] == [step] && [step][1..] == [];
    assert OrderAfter(s2, [hi, lo], []) == [hi, lo];
    assert OrderAfter(s1, [hi], [step]) == [hi, lo];
  }

  /** Reachable from an empty database: after the two entries above, two launches and one start
      trigger, row 2 was launched first but row 1 gets the stamp. */
  lemma LaunchedOutOfOrder(tUs: int, now: int)
    ensures Inv(Empty)
    ensures var s := Run(Empty, TwoEntries);
            && Waitlist(s.queue, 1) == [2, 1]
            && var s2 := Run(s, [DoLaunch(None, now), DoLaunch(None, now)]);
               && OrderAfter(s, [], [DoLaunch(None, now), DoLaunch(None, now)]) == [2, 1]
               && s2.active == Some(1) && 1 in s2.queue && 2 in s2.queue
               && var q := SensorStart(s2, tUs, now).s.queue; 1 in q && q[1].tStart == Some(tUs) && 2 in q && q[2].tStart == None
  {
    EmptyOk();
    var s := SetUp();
    LaterLaunchIsStamped(s, 1, 2, 1, tUs, now);
    var s2 := Run(s, [DoLaunch(None, now), DoLaunch(None, now)]);
    assert 1 in ReadySet(s2, 1) && 2 in ReadySet(s2, 1);
  }

  lemma SetUp() returns (s: State)
    ensures Inv(Empty) && Inv(s) && s == Run(Empty, TwoEntries)
    ensures s.active == Some(1) && 1 in s.events && s.events[1].sensorMode
    ensures Waitlist(s.queue, 1) == [2, 1] && forall q :: !IsOnCourse(s.queue, q)
  {
    EmptyOk();
    var s1 := Apply(Empty, TwoEntries[0]).s;
    StepKeeps(Empty, TwoEntries[0]);
    var s2, s3 := TwoAdded(s1);
    s := SecondMoved(s3);
    FourSteps(s1, s2, s3, s);
  }

  lemma SecondMoved(s3: State) returns (s: State)
    requires Inv(s3) && s3.active == Some(1) && s3.events == map[1 := SensorEvent]
    requires s3.queue == map[1 := Row(1, 1, 1, 1.0, Waiting, None, 0, false), 2 := Row(1, 2, 2, 2.0, Waiting, None, 0, false)]
    requires Waitlist(s3.queue, 1) == [1, 2]
    ensures s == Apply(s3, TwoEntries[3]).s && Inv(s)
    ensures s.active == Some(1) && 1 in s.events && s.events[1].sensorMode
    ensures Waitlist(s.queue, 1) == [2, 1] && forall q :: !IsOnCourse(s.queue, q)
  {
    MovedToFront(s3.queue);
    s := Apply(s3, TwoEntries[3]).s;
    StepKeeps(s3, TwoEntries[3]);
  }

  lemma TwoAdded(s1: State) returns (s2: State, s3: State)
    requires s1 == EventCreate(Empty, SensorEvent).s && Inv(s1)
    ensures s2 == Apply(s1, TwoEntries[1]).s && Inv(s2) && s3 == Apply(s2, TwoEntries[2]).s && Inv(s3)
    ensures s3.active == Some(1) && s3.events == map[1 := SensorEvent]
    ensures s3.queue == map[1 := Row(1, 1, 1, 1.0, Waiting, None, 0, false), 2 := Row(1, 2, 2, 2.0, Waiting, None, 0, false)]
    ensures Waitlist(s3.queue, 1) == [1, 2]
  {
    FirstEntry(s1);
    s2 := Apply(s1, TwoEntries[1]).s;
    StepKeeps(s1, TwoEntries[1]);
    SecondEntry(s2);
    s3 := Apply(s2, TwoEntries[2]).s;
    StepKeeps(s2, TwoEntries[2]);
  }

  lemma FourSteps(s1: State, s2: State, s3: State, s: State)
    requires Inv(Empty) && s1 == Apply(Empty, TwoEntries[0]).s && Inv(s1) && s2 == Apply(s1, TwoEntries[1]).s
    requires Inv(s2) && s3 == Apply(s2, TwoEntries[2]).s && Inv(s3) && s == Apply(s3, TwoEntries[3]).s && Inv(s)
    ensures Run(Empty, TwoEntries) == s
  {
    var rest := TwoEntries[1..];
    assert rest[0] == TwoEntries[1] && rest[1..][0] == TwoEntries[2] && rest[1..][1..][0] == TwoEntries[3] && rest[1..][1..][1..] == [];
    assert Run(s3, rest[1..][1..]) == s;
    assert Run(s2, rest[1..]) == s;
    assert Run(s1, rest) == s;
  }
}
