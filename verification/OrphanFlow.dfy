/** Orphan runs under interleaving and failing store calls (internal/web/sensor.go,
    internal/web/admin_course.go). Every locked section of the FIFO and every store call is
    one step of some thread; threads interleave freely and any store call may fail. A row is only
    a number here; OrphanStarts puts the rows beside it. */
module OrphanFlow {
  import opened Common
  import opened OrphanFifo

  datatype After = NothingMore | ThenPair(run: OrphanRun, goalUs: int)

  /** Where a request is. A thread that is not in the map is idle. */
  datatype Thread =
    | Reporting(expired: seq<OrphanRun>, after: After)
    | Pairing(run: OrphanRun, goalUs: int)
    | AdoptTaken(run: OrphanRun, row: int)
    | AdoptClaimed(run: OrphanRun, row: int)

  /** `queued` is history: the runs ever appended, in order. */
  datatype State = State(
    fifo: seq<OrphanRun>, orphanSeq: int, threads: map<int, Thread>,
    expired: seq<OrphanRun>, discarded: seq<OrphanRun>, dismissed: seq<OrphanRun>,
    logged: seq<OrphanRun>, adopted: seq<(OrphanRun, int)>,
    queued: seq<OrphanRun>)

  datatype StoreReply = Succeeded | Lost | Failed

  datatype Step =
    | StartTrigger(tid: int, tUs: int, atMs: int, maxSec: int)
    | GoalTrigger(tid: int, tUs: int, maxSec: int)
    | Report(tid: int)
    | Pair(tid: int, inserted: StoreReply)
    | AdoptTake(tid: int, id: int, row: int)
    | AdoptClaim(tid: int, claimed: StoreReply)
    | AdoptStamp(tid: int, stamped: StoreReply)
    | Dismiss(tid: int, id: int)

  const Initial: State := State([], 0, map[], [], [], [], [], [], [])

  // ---------------------------------------------------------------- steps

  /** The locked section of SensorStart: prune, number, append. The pruned runs are now only in
      a local slice of the thread. */
  function OnStart(s: State, tid: int, tUs: int, atMs: int, maxSec: int): (s': State) {
    var run := OrphanRun(s.orphanSeq + 1, tUs, atMs);
    s.(fifo := Kept(s.fifo, tUs, maxSec) + [run], orphanSeq := s.orphanSeq + 1,
       threads := s.threads[tid := Reporting(Pruned(s.fifo, tUs, maxSec), NothingMore)],
       queued := s.queued + [run])
  }

  /** The locked section of SensorGoal: prune, pop the oldest. */
  function OnGoal(s: State, tid: int, tUs: int, maxSec: int): (s': State) {
    var kept := Kept(s.fifo, tUs, maxSec);
    var after := if kept == [] then NothingMore else ThenPair(kept[0], tUs);
    s.(fifo := if kept == [] then [] else kept[1..],
       threads := s.threads[tid := Reporting(Pruned(s.fifo, tUs, maxSec), after)])
  }

  function OnReport(s: State, tid: int, th: Thread): (s': State)
    requires th.Reporting?
  {
    if th.expired != [] then
      s.(expired := s.expired + [th.expired[0]], threads := s.threads[tid := Reporting(th.expired[1..], th.after)])
    else match th.after
      case NothingMore => s.(threads := s.threads - {tid})
      case ThenPair(run, goalUs) => s.(threads := s.threads[tid := Pairing(run, goalUs)])
  }

  /** SensorGoal's tail: discard, or insert a log, or put the run back if the insert fails. */
  function OnPair(s: State, tid: int, th: Thread, inserted: StoreReply): (s': State)
    requires th.Pairing?
  {
    var idle := s.threads - {tid};
    if TruncDiv(th.goalUs - th.run.tStart, 1000) < 0 then s.(discarded := s.discarded + [th.run], threads := idle)
    else if inserted == Succeeded then s.(logged := s.logged + [th.run], threads := idle)
    else s.(fifo := Restored(s.fifo, th.run), threads := idle)
  }

  function OnTake(s: State, tid: int, id: int, row: int): (s': State) {
    var i := IndexOf(s.fifo, id);
    if i == |s.fifo| then s
    else s.(fifo := Without(s.fifo, id), threads := s.threads[tid := AdoptTaken(s.fifo[i], row)])
  }

  function OnClaim(s: State, tid: int, th: Thread, claimed: StoreReply): (s': State)
    requires th.AdoptTaken?
  {
    if claimed == Succeeded then s.(threads := s.threads[tid := AdoptClaimed(th.run, th.row)])
    else s.(fifo := Restored(s.fifo, th.run), threads := s.threads - {tid})
  }

  /** The rollback of the claim, tried before the run is restored, touches no run. */
  function OnStamp(s: State, tid: int, th: Thread, stamped: StoreReply): (s': State)
    requires th.AdoptClaimed?
  {
    if stamped == Succeeded then s.(adopted := s.adopted + [(th.run, th.row)], threads := s.threads - {tid})
    else s.(fifo := Restored(s.fifo, th.run), threads := s.threads - {tid})
  }

  function OnDismiss(s: State, id: int): (s': State) {
    var i := IndexOf(s.fifo, id);
    if i == |s.fifo| then s
    else s.(fifo := Without(s.fifo, id), dismissed := s.dismissed + [s.fifo[i]])
  }

  /** A step that does not fit where its thread is does not happen. */
  function Apply(s: State, step: Step): (s': State) {
    var tid := step.tid;
    if tid !in s.threads then
      match step
      case StartTrigger(_, tUs, atMs, maxSec) => OnStart(s, tid, tUs, atMs, maxSec)
      case GoalTrigger(_, tUs, maxSec) => OnGoal(s, tid, tUs, maxSec)
      case AdoptTake(_, id, row) => OnTake(s, tid, id, row)
      case Dismiss(_, id) => OnDismiss(s, id)
      case _ => s
    else
      var th := s.threads[tid];
      match step
      case Report(_) => if th.Reporting? then OnReport(s, tid, th) else s
      case Pair(_, inserted) => if th.Pairing? then OnPair(s, tid, th, inserted) else s
      case AdoptClaim(_, claimed) => if th.AdoptTaken? then OnClaim(s, tid, th, claimed) else s
      case AdoptStamp(_, stamped) => if th.AdoptClaimed? then OnStamp(s, tid, th, stamped) else s
      case _ => s
  }

  // ---------------------------------------------------------------- places

  datatype Place = InFifo | InFlight(tid: int) | ExpiredWarning | GoalBeforeStart | Dismissed | UnassignedLog | AdoptedRow

  /** The runs a request holds in its local variables. */
  function HeldBy(th: Thread): (rs: seq<OrphanRun>) {
    match th
    case Reporting(expired, NothingMore) => expired
    case Reporting(expired, ThenPair(run, _)) => expired + [run]
    case Pairing(run, _) => [run]
    case AdoptTaken(run, _) => [run]
    case AdoptClaimed(run, _) => [run]
  }

  function Runs(adopted: seq<(OrphanRun, int)>): (rs: seq<OrphanRun>)
    ensures |rs| == |adopted| && forall i :: 0 <= i < |rs| ==> rs[i] == adopted[i].0
  {
    seq(|adopted|, i requires 0 <= i < |adopted| => adopted[i].0)
  }

  function ContentsOf(s: State, p: Place): (rs: seq<OrphanRun>) {
    match p
    case InFifo => s.fifo
    case InFlight(tid) => if tid in s.threads then HeldBy(s.threads[tid]) else []
    case ExpiredWarning => s.expired
    case GoalBeforeStart => s.discarded
    case Dismissed => s.dismissed
    case UnassignedLog => s.logged
    case AdoptedRow => Runs(s.adopted)
  }

  ghost predicate At(s: State, run: OrphanRun, p: Place) {
    run in ContentsOf(s, p)
  }

  ghost predicate NoRepeats(rs: seq<OrphanRun>) {
    forall i, j :: 0 <= i < j < |rs| ==> rs[i] != rs[j]
  }

  /** The runs were numbered 1, 2, 3, ... as they were queued. */
  ghost predicate Numbered(s: State) {
    && s.orphanSeq == |s.queued|
    && forall i :: 0 <= i < |s.queued| ==> s.queued[i].id == i + 1
  }

  /** `home` gives each run ever queued its one place. */
  ghost predicate Inv(s: State, home: seq<Place>) {
    && Numbered(s)
    && |home| == |s.queued|
    && (forall i :: 0 <= i < |home| ==> At(s, s.queued[i], home[i]))
    && (forall run, p :: At(s, run, p) ==> 1 <= run.id <= |home| && s.queued[run.id - 1] == run && home[run.id - 1] == p)
    && (forall p :: NoRepeats(ContentsOf(s, p)))
    && Increasing(s.fifo)
  }

  ghost predicate AtSomewhere(s: State, run: OrphanRun) {
    exists p :: At(s, run, p)
  }

  /** The runs of one set move to place `dest`; every other run stays where it was. */
  ghost predicate Moves(s: State, s': State, moved: set<OrphanRun>, dest: Place) {
    && s'.queued == s.queued && s'.orphanSeq == s.orphanSeq
    && (forall run :: run in moved ==> AtSomewhere(s, run))
    && (forall run, p :: At(s', run, p) <==> if run in moved then p == dest else At(s, run, p))
  }

  lemma StillHome(s: State, home: seq<Place>, s': State, moved: set<OrphanRun>, dest: Place, i: int)
    requires Inv(s, home) && Moves(s, s', moved, dest) && 0 <= i < |home|
    ensures At(s', s.queued[i], if s.queued[i] in moved then dest else home[i])
  {
    assert At(s, s.queued[i], home[i]);
  }

  lemma NowhereElse(s: State, home: seq<Place>, s': State, moved: set<OrphanRun>, dest: Place, run: OrphanRun, p: Place)
    requires Inv(s, home) && Moves(s, s', moved, dest) && At(s', run, p)
    ensures 1 <= run.id <= |home| && s.queued[run.id - 1] == run && (if run in moved then dest else home[run.id - 1]) == p
  {
    if run in moved {
      assert AtSomewhere(s, run);
      var p0 :| At(s, run, p0);
    } else {
      assert At(s, run, p);
    }
  }

  /** Such a step keeps one place for each run. */
  lemma MoveKeeps(s: State, home: seq<Place>, s': State, moved: set<OrphanRun>, dest: Place) returns (home': seq<Place>)
    requires Inv(s, home) && Moves(s, s', moved, dest) && Increasing(s'.fifo)
    requires forall p :: NoRepeats(ContentsOf(s', p))
    ensures Inv(s', home')
  {
    home' := seq(|home|, i requires 0 <= i < |home| => if s.queued[i] in moved then dest else home[i]);
    forall i | 0 <= i < |home'| ensures At(s', s'.queued[i], home'[i]) { StillHome(s, home, s', moved, dest, i); }
    forall run, p | At(s', run, p) ensures 1 <= run.id <= |home'| && s'.queued[run.id - 1] == run && home'[run.id - 1] == p {
      NowhereElse(s, home, s', moved, dest, run, p);
    }
  }

  lemma InFifoOnce(rs: seq<OrphanRun>)
    requires Increasing(rs)
    ensures NoRepeats(rs)
  {
  }

  lemma AppendNoRepeats(rs: seq<OrphanRun>, run: OrphanRun)
    requires NoRepeats(rs) && run !in rs
    ensures NoRepeats(rs + [run])
    ensures forall r :: r in rs + [run] <==> r in rs || r == run
  {
  }

  // ---------------------------------------------------------------- each step keeps the places

  lemma PruneFacts(rs: seq<OrphanRun>, refUs: int, maxSec: int)
    requires Increasing(rs)
    ensures Increasing(Kept(rs, refUs, maxSec)) && Increasing(Pruned(rs, refUs, maxSec))
    ensures forall r :: r in Kept(rs, refUs, maxSec) <==> r in rs && !Expired(r, refUs, maxSec)
    ensures forall r :: r in Pruned(rs, refUs, maxSec) <==> r in rs && Expired(r, refUs, maxSec)
  {
    SelectSound(rs, refUs, maxSec, false);
    SelectSound(rs, refUs, maxSec, true);
    SelectIncreasing(rs, refUs, maxSec, false);
    SelectIncreasing(rs, refUs, maxSec, true);
  }

  /** Taking a prefix or a sub-list out of the FIFO into a thread. */
  lemma FifoToThread(s: State, home: seq<Place>, tid: int, th: Thread, rest: seq<OrphanRun>) returns (home': seq<Place>)
    requires Inv(s, home) && tid !in s.threads
    requires Increasing(rest) && NoRepeats(HeldBy(th))
    requires forall r :: r in s.fifo <==> r in rest || r in HeldBy(th)
    requires forall r :: !(r in rest && r in HeldBy(th))
    ensures Inv(s.(fifo := rest, threads := s.threads[tid := th]), home')
  {
    var s' := s.(fifo := rest, threads := s.threads[tid := th]);
    var moved := set r | r in HeldBy(th);
    forall run, p ensures At(s', run, p) <==> if run in moved then p == InFlight(tid) else At(s, run, p) {
      if run in moved { assert At(s, run, InFifo); }
      assert p != InFifo && p != InFlight(tid) ==> ContentsOf(s', p) == ContentsOf(s, p) && (At(s', run, p) <==> At(s, run, p));
      assert p == InFifo ==> (At(s', run, p) <==> run in rest) && (At(s, run, p) <==> run in s.fifo);
      assert p == InFlight(tid) ==> !At(s, run, p) && (At(s', run, p) <==> run in HeldBy(th));
    }
    forall p ensures NoRepeats(ContentsOf(s', p)) {
      assert p != InFifo && p != InFlight(tid) ==> ContentsOf(s', p) == ContentsOf(s, p);
      InFifoOnce(rest);
    }
    forall run | run in moved ensures AtSomewhere(s, run) { assert At(s, run, InFifo); }
    home' := MoveKeeps(s, home, s', moved, InFlight(tid));
  }

  lemma GoalKeeps(s: State, home: seq<Place>, tid: int, tUs: int, maxSec: int) returns (home': seq<Place>)
    requires Inv(s, home) && tid !in s.threads
    ensures Inv(OnGoal(s, tid, tUs, maxSec), home')
  {
    var kept, pruned := Kept(s.fifo, tUs, maxSec), Pruned(s.fifo, tUs, maxSec);
    PruneFacts(s.fifo, tUs, maxSec);
    InFifoOnce(pruned);
    if kept == [] {
      assert forall r :: r !in kept;
      home' := FifoToThread(s, home, tid, Reporting(pruned, NothingMore), []);
    } else {
      assert kept == [kept[0]] + kept[1..];
      assert forall r :: r in kept <==> r == kept[0] || r in kept[1..];
      assert kept[0] !in pruned;
      AppendNoRepeats(pruned, kept[0]);
      forall r ensures !(r in kept[1..] && r == kept[0]) {
        if r in kept[1..] { var k :| 0 <= k < |kept[1..]| && kept[1..][k] == r; assert kept[k + 1] == r; assert kept[0].id < kept[k + 1].id; }
      }
      home' := FifoToThread(s, home, tid, Reporting(pruned, ThenPair(kept[0], tUs)), kept[1..]);
    }
  }

  /** A new run joins the FIFO behind all the others. */
  lemma PushKeeps(s: State, home: seq<Place>, run: OrphanRun) returns (home': seq<Place>)
    requires Inv(s, home) && run.id == s.orphanSeq + 1
    ensures Inv(s.(fifo := s.fifo + [run], orphanSeq := run.id, queued := s.queued + [run]), home')
  {
    var s' := s.(fifo := s.fifo + [run], orphanSeq := run.id, queued := s.queued + [run]);
    forall r | r in s.fifo ensures r.id < run.id { assert At(s, r, InFifo); }
    assert forall i :: 0 <= i < |s.fifo| ==> s.fifo[i] in s.fifo;
    assert Increasing(s'.fifo);
    home' := home + [InFifo];
    assert forall p :: p != InFifo ==> ContentsOf(s', p) == ContentsOf(s, p);
    forall r, p | At(s', r, p) ensures 1 <= r.id <= |home'| && s'.queued[r.id - 1] == r && home'[r.id - 1] == p {
      if !(r == run && p == InFifo) { assert At(s, r, p); }
    }
    forall i | 0 <= i < |home'| ensures At(s', s'.queued[i], home'[i]) {
      if i < |home| { assert At(s, s.queued[i], home[i]); }
    }
    forall p ensures NoRepeats(ContentsOf(s', p)) { InFifoOnce(s'.fifo); }
  }

  lemma StartKeeps(s: State, home: seq<Place>, tid: int, tUs: int, atMs: int, maxSec: int) returns (home': seq<Place>)
    requires Inv(s, home) && tid !in s.threads
    ensures Inv(OnStart(s, tid, tUs, atMs, maxSec), home')
  {
    var kept, pruned := Kept(s.fifo, tUs, maxSec), Pruned(s.fifo, tUs, maxSec);
    PruneFacts(s.fifo, tUs, maxSec);
    InFifoOnce(pruned);
    var th := Reporting(pruned, NothingMore);
    var home1 := FifoToThread(s, home, tid, th, kept);
    var s1 := s.(fifo := kept, threads := s.threads[tid := th]);
    home' := PushKeeps(s1, home1, OrphanRun(s.orphanSeq + 1, tUs, atMs));
  }

  lemma TakeFacts(rs: seq<OrphanRun>, id: int)
    requires Increasing(rs) && IndexOf(rs, id) < |rs|
    ensures var run := rs[IndexOf(rs, id)];
            && Increasing(Without(rs, id)) && run in rs && run !in Without(rs, id)
            && forall r :: r in rs <==> r in Without(rs, id) || r == run
  {
    WithoutIncreasing(rs, id);
    var i := IndexOf(rs, id);
    forall r | r in rs && r.id == id ensures r == rs[i] {
      var k :| 0 <= k < |rs| && rs[k] == r;
      IndexOfPresent(rs, k);
    }
  }

  lemma AdoptTakeKeeps(s: State, home: seq<Place>, tid: int, id: int, row: int) returns (home': seq<Place>)
    requires Inv(s, home) && tid !in s.threads
    ensures Inv(OnTake(s, tid, id, row), home')
  {
    home' := home;
    var i := IndexOf(s.fifo, id);
    if i < |s.fifo| {
      TakeFacts(s.fifo, id);
      home' := FifoToThread(s, home, tid, AdoptTaken(s.fifo[i], row), Without(s.fifo, id));
    }
  }

  /** One run goes from one place to another; the rest stays. */
  lemma OneMoves(s: State, home: seq<Place>, run: OrphanRun, origin: Place, dest: Place, s': State) returns (home': seq<Place>)
    requires Inv(s, home) && At(s, run, origin) && origin != dest
    requires s'.queued == s.queued && s'.orphanSeq == s.orphanSeq && Increasing(s'.fifo)
    requires forall p :: p != origin && p != dest ==> ContentsOf(s', p) == ContentsOf(s, p)
    requires forall r :: At(s', r, origin) <==> At(s, r, origin) && r != run
    requires forall r :: At(s', r, dest) <==> At(s, r, dest) || r == run
    requires NoRepeats(ContentsOf(s', origin)) && NoRepeats(ContentsOf(s', dest))
    ensures Inv(s', home')
  {
    forall r, p ensures At(s', r, p) <==> if r == run then p == dest else At(s, r, p) {
      assert p != origin && p != dest ==> (At(s', r, p) <==> At(s, r, p));
    }
    assert AtSomewhere(s, run);
    home' := MoveKeeps(s, home, s', {run}, dest);
  }

  /** A thread that held one run gives it back to the FIFO and is done. */
  lemma RestoreKeeps(s: State, home: seq<Place>, tid: int, run: OrphanRun) returns (home': seq<Place>)
    requires Inv(s, home) && tid in s.threads && HeldBy(s.threads[tid]) == [run]
    ensures Inv(s.(fifo := Restored(s.fifo, run), threads := s.threads - {tid}), home')
  {
    var s' := s.(fifo := Restored(s.fifo, run), threads := s.threads - {tid});
    assert At(s, run, InFlight(tid));
    forall r | r in s.fifo ensures r.id != run.id { assert At(s, r, InFifo); }
    RestoredIncreasing(s.fifo, run);
    InFifoOnce(s'.fifo);
    home' := OneMoves(s, home, run, InFlight(tid), InFifo, s');
  }

  /** A thread that held one run records its end and is done. */
  lemma EndKeeps(s: State, home: seq<Place>, tid: int, run: OrphanRun, dest: Place, s': State) returns (home': seq<Place>)
    requires Inv(s, home) && tid in s.threads && HeldBy(s.threads[tid]) == [run]
    requires !dest.InFifo? && !dest.InFlight?
    requires ContentsOf(s', dest) == ContentsOf(s, dest) + [run]
    requires s'.threads == s.threads - {tid} && s'.queued == s.queued && s'.orphanSeq == s.orphanSeq && s'.fifo == s.fifo
    requires forall p :: p != dest && p != InFlight(tid) ==> ContentsOf(s', p) == ContentsOf(s, p)
    ensures Inv(s', home')
  {
    assert At(s, run, InFlight(tid));
    assert !At(s, run, dest);
    AppendNoRepeats(ContentsOf(s, dest), run);
    home' := OneMoves(s, home, run, InFlight(tid), dest, s');
  }

  /** A thread changes what it is about to do, but not what it holds. */
  lemma RelabelKeeps(s: State, home: seq<Place>, tid: int, threads: map<int, Thread>)
    requires Inv(s, home) && tid in s.threads
    requires if tid in threads then threads == s.threads[tid := threads[tid]] && HeldBy(threads[tid]) == HeldBy(s.threads[tid])
             else threads == s.threads - {tid} && HeldBy(s.threads[tid]) == []
    ensures Inv(s.(threads := threads), home)
  {
    var s' := s.(threads := threads);
    forall p ensures ContentsOf(s', p) == ContentsOf(s, p) { }
    assert forall r, p :: At(s', r, p) <==> At(s, r, p);
  }

  lemma ReportKeeps(s: State, home: seq<Place>, tid: int) returns (home': seq<Place>)
    requires Inv(s, home) && tid in s.threads && s.threads[tid].Reporting?
    ensures Inv(OnReport(s, tid, s.threads[tid]), home')
  {
    var th := s.threads[tid];
    home' := home;
    if th.expired == [] {
      RelabelKeeps(s, home, tid, OnReport(s, tid, th).threads);
    } else {
      var run := th.expired[0];
      var th' := Reporting(th.expired[1..], th.after);
      var s' := OnReport(s, tid, th);
      HeldShrinks(th);
      assert NoRepeats(ContentsOf(s, InFlight(tid)));
      HeadGone(HeldBy(th));
      assert At(s, run, InFlight(tid));
      assert !At(s, run, ExpiredWarning);
      AppendNoRepeats(s.expired, run);
      home' := OneMoves(s, home, run, InFlight(tid), ExpiredWarning, s');
    }
  }

  lemma HeldShrinks(th: Thread)
    requires th.Reporting? && th.expired != []
    ensures HeldBy(Reporting(th.expired[1..], th.after)) == HeldBy(th)[1..]
    ensures HeldBy(th) != [] && HeldBy(th)[0] == th.expired[0]
  {
  }

  lemma HeadGone(rs: seq<OrphanRun>)
    requires NoRepeats(rs) && rs != []
    ensures NoRepeats(rs[1..])
    ensures forall r :: r in rs[1..] <==> r in rs && r != rs[0]
  {
    assert rs == [rs[0]] + rs[1..];
    forall r | r in rs[1..] ensures r != rs[0] {
      var k :| 0 <= k < |rs[1..]| && rs[1..][k] == r;
      assert rs[k + 1] == r;
    }
  }

  lemma PairKeeps(s: State, home: seq<Place>, tid: int, inserted: StoreReply) returns (home': seq<Place>)
    requires Inv(s, home) && tid in s.threads && s.threads[tid].Pairing?
    ensures Inv(OnPair(s, tid, s.threads[tid], inserted), home')
  {
    var th := s.threads[tid];
    var s' := OnPair(s, tid, th, inserted);
    if TruncDiv(th.goalUs - th.run.tStart, 1000) < 0 {
      home' := EndKeeps(s, home, tid, th.run, GoalBeforeStart, s');
    } else if inserted == Succeeded {
      home' := EndKeeps(s, home, tid, th.run, UnassignedLog, s');
    } else {
      home' := RestoreKeeps(s, home, tid, th.run);
    }
  }

  lemma ClaimKeeps(s: State, home: seq<Place>, tid: int, claimed: StoreReply) returns (home': seq<Place>)
    requires Inv(s, home) && tid in s.threads && s.threads[tid].AdoptTaken?
    ensures Inv(OnClaim(s, tid, s.threads[tid], claimed), home')
  {
    var th := s.threads[tid];
    if claimed == Succeeded {
      RelabelKeeps(s, home, tid, s.threads[tid := AdoptClaimed(th.run, th.row)]);
      home' := home;
    } else {
      home' := RestoreKeeps(s, home, tid, th.run);
    }
  }

  lemma StampKeeps(s: State, home: seq<Place>, tid: int, stamped: StoreReply) returns (home': seq<Place>)
    requires Inv(s, home) && tid in s.threads && s.threads[tid].AdoptClaimed?
    ensures Inv(OnStamp(s, tid, s.threads[tid], stamped), home')
  {
    var th := s.threads[tid];
    var s' := OnStamp(s, tid, th, stamped);
    if stamped == Succeeded {
      assert Runs(s'.adopted) == Runs(s.adopted) + [th.run];
      home' := EndKeeps(s, home, tid, th.run, AdoptedRow, s');
    } else {
      home' := RestoreKeeps(s, home, tid, th.run);
    }
  }

  lemma DismissKeeps(s: State, home: seq<Place>, id: int) returns (home': seq<Place>)
    requires Inv(s, home)
    ensures Inv(OnDismiss(s, id), home')
  {
    home' := home;
    var i := IndexOf(s.fifo, id);
    if i < |s.fifo| {
      var run := s.fifo[i];
      var s' := OnDismiss(s, id);
      TakeFacts(s.fifo, id);
      assert At(s, run, InFifo);
      assert !At(s, run, Dismissed);
      AppendNoRepeats(s.dismissed, run);
      InFifoOnce(s'.fifo);
      home' := OneMoves(s, home, run, InFifo, Dismissed, s');
    }
  }

  lemma StepKeeps(s: State, home: seq<Place>, step: Step) returns (home': seq<Place>)
    requires Inv(s, home)
    ensures Inv(Apply(s, step), home')
  {
    home' := home;
    var tid := step.tid;
    if tid !in s.threads {
      match step
      case StartTrigger(_, tUs, atMs, maxSec) => home' := StartKeeps(s, home, tid, tUs, atMs, maxSec);
      case GoalTrigger(_, tUs, maxSec) => home' := GoalKeeps(s, home, tid, tUs, maxSec);
      case AdoptTake(_, id, row) => home' := AdoptTakeKeeps(s, home, tid, id, row);
      case Dismiss(_, id) => home' := DismissKeeps(s, home, id);
      case _ =>
    } else {
      var th := s.threads[tid];
      match step
      case Report(_) => if th.Reporting? { home' := ReportKeeps(s, home, tid); }
      case Pair(_, inserted) => if th.Pairing? { home' := PairKeeps(s, home, tid, inserted); }
      case AdoptClaim(_, claimed) => if th.AdoptTaken? { home' := ClaimKeeps(s, home, tid, claimed); }
      case AdoptStamp(_, stamped) => if th.AdoptClaimed? { home' := StampKeeps(s, home, tid, stamped); }
      case _ =>
    }
  }

  // ---------------------------------------------------------------- every run

  function Run(s: State, steps: seq<Step>): (s': State)
    decreases |steps|
  {
    if steps == [] then s else Run(Apply(s, steps[0]), steps[1..])
  }

  lemma {:induction false} RunKeeps(s: State, home: seq<Place>, steps: seq<Step>) returns (home': seq<Place>)
    requires Inv(s, home)
    ensures Inv(Run(s, steps), home')
    decreases |steps|
  {
    if steps == [] {
      home' := home;
    } else {
      var home1 := StepKeeps(s, home, steps[0]);
      home' := RunKeeps(Apply(s, steps[0]), home1, steps[1..]);
    }
  }

  /** Whatever the interleaving and whichever store calls fail: every orphan run ever queued is
      in exactly one place, once, unaltered; no place holds a run that was never queued; and the
      FIFO is in strictly increasing order of id. */
  lemma NoRunLostOrDoubled(steps: seq<Step>)
    ensures var s := Run(Initial, steps);
            && (forall i :: 0 <= i < |s.queued| ==> s.queued[i].id == i + 1)
            && (forall i :: 0 <= i < |s.queued| ==> HasOnePlace(s, s.queued[i]))
            && (forall p, run :: At(s, run, p) ==> run in s.queued)
            && (forall p :: NoRepeats(ContentsOf(s, p)))
            && Increasing(s.fifo)
  {
    InitialOk();
    var home := RunKeeps(Initial, [], steps);
    var s := Run(Initial, steps);
    forall i | 0 <= i < |s.queued| ensures HasOnePlace(s, s.queued[i]) {
      assert At(s, s.queued[i], home[i]);
    }
  }

  ghost predicate HasOnePlace(s: State, run: OrphanRun) {
    exists p :: At(s, run, p) && forall p' :: At(s, run, p') ==> p' == p
  }

  lemma InitialOk()
    ensures Inv(Initial, [])
  {
    assert forall p :: ContentsOf(Initial, p) == [];
  }

  /** An adoption whose claim is lost or fails, or whose stamp fails, leaves the FIFO as it was,
      even if newer start triggers arrived in the meantime. */
  lemma FailedAdoptionRestores(s: State, tid: int, id: int, row: int, newer: seq<OrphanRun>, stampToo: bool, bad: StoreReply)
    requires Increasing(s.fifo) && tid !in s.threads && IndexOf(s.fifo, id) < |s.fifo| && bad != Succeeded
    requires forall r, n :: r in s.fifo && n in newer ==> r.id < n.id
    ensures var s1 := Apply(s, AdoptTake(tid, id, row));
            var s2 := s1.(fifo := s1.fifo + newer);
            var s3 := if stampToo then Apply(Apply(s2, AdoptClaim(tid, Succeeded)), AdoptStamp(tid, bad))
                      else Apply(s2, AdoptClaim(tid, bad));
            s3.fifo == s.fifo + newer && s3.threads == s.threads && s3.adopted == s.adopted
  {
    TakeThenRestore(s.fifo, id, newer);
    assert s.threads[tid := AdoptTaken(s.fifo[IndexOf(s.fifo, id)], row)] - {tid} == s.threads;
    assert s.threads[tid := AdoptClaimed(s.fifo[IndexOf(s.fifo, id)], row)] - {tid} == s.threads;
  }
}
