/** The slewed time base (firmware/lib/timebase/timebase.h): microseconds of the monotonic clock
    turned into microseconds of the server's wall clock. */
module TimeBase {
  import opened Common

  const MAX_SLEW_PPM: int := 500
  const MILLION: int := 1_000_000

  datatype Clock = Clock(wallAnchor: int, monoAnchor: int, slewMono: int, slewRemaining: int, synced: bool)

  const Unset: Clock := Clock(0, 0, 0, 0, false)

  function Anchored(wall: int, mono: int): (c: Clock) {
    Clock(wall, mono, mono, 0, true)
  }

  /** The anchor's own line: one wall microsecond per monotonic microsecond. */
  function Base(c: Clock, mono: int): (wall: int) {
    c.wallAnchor + (mono - c.monoAnchor)
  }

  /** How much correction the slew has let in by mono. */
  function Correction(c: Clock, mono: int): (us: int) {
    if c.slewRemaining == 0 || mono - c.slewMono <= 0 then 0
    else
      var cap := TruncDiv((mono - c.slewMono) * MAX_SLEW_PPM, MILLION);
      if c.slewRemaining >= 0 then (if cap < c.slewRemaining then cap else c.slewRemaining)
      else (if -cap > c.slewRemaining then -cap else c.slewRemaining)
  }

  function WallAt(c: Clock, mono: int): (wall: int) {
    Base(c, mono) + Correction(c, mono)
  }

  function Resynced(c: Clock, wall: int, mono: int): (c': Clock) {
    if !c.synced then Anchored(wall, mono)
    else c.(slewRemaining := wall - WallAt(c, mono), slewMono := mono)
  }

  /** Where a hard anchor at (wall, mono) would put a later reading. */
  function HardLine(wall: int, mono: int, at: int): (us: int) {
    WallAt(Anchored(wall, mono), at)
  }

  function Abs(x: int): (a: int) {
    if x >= 0 then x else -x
  }

  /** It goes through the anchor, one wall microsecond per monotonic one, and any clock does until
      its slew begins. */
  lemma AnchorIsRead(wall: int, mono: int, at: int)
    ensures HardLine(wall, mono, at) == wall + (at - mono)
    ensures Anchored(wall, mono).synced && WallAt(Anchored(wall, mono), mono) == wall
    ensures Resynced(Unset, wall, mono) == Anchored(wall, mono)
  {
  }

  // ---------------------------------------------------------------- the slew cap

  function Cap(elapsed: int): (us: int) {
    TruncDiv(elapsed * MAX_SLEW_PPM, MILLION)
  }

  /** Over any stretch the cap grows, and by no more than the time that passed. */
  lemma CapGrows(a: int, b: int)
    requires 0 <= a <= b
    ensures 0 <= Cap(a) <= Cap(b) <= Cap(a) + (b - a)
    ensures Cap(a) >= 1 <==> a >= 2000
    ensures Cap(a) * 2000 <= a < Cap(a) * 2000 + 2000
  {
    assert Cap(a) == a * 500 / 1_000_000 && Cap(b) == b * 500 / 1_000_000;
  }

  lemma CorrectionIs(c: Clock, mono: int)
    ensures mono <= c.slewMono ==> Correction(c, mono) == 0
    ensures mono > c.slewMono && c.slewRemaining >= 0 ==>
              Correction(c, mono) == if Cap(mono - c.slewMono) < c.slewRemaining then Cap(mono - c.slewMono) else c.slewRemaining
    ensures mono > c.slewMono && c.slewRemaining < 0 ==>
              Correction(c, mono) == if -Cap(mono - c.slewMono) > c.slewRemaining then -Cap(mono - c.slewMono) else c.slewRemaining
  {
    if mono > c.slewMono { CapGrows(mono - c.slewMono, mono - c.slewMono); }
  }

  // ---------------------------------------------------------------- any clock

  /** Whatever was anchored and resynced before, a later edge never gets an earlier wall time. */
  lemma NeverRunsBackwards(c: Clock, m: int, n: int)
    requires m <= n
    ensures WallAt(c, m) <= WallAt(c, n)
  {
    CorrectionIs(c, m);
    CorrectionIs(c, n);
    if m > c.slewMono { CapGrows(m - c.slewMono, n - c.slewMono); }
    else if n > c.slewMono { CapGrows(0, n - c.slewMono); }
  }

  /** The correction goes toward its target, never past it, and no faster than 500 µs a second. */
  lemma SlewIsBounded(c: Clock, m: int)
    ensures m <= c.slewMono ==> WallAt(c, m) == Base(c, m)
    ensures m >= c.slewMono ==> Abs(WallAt(c, m) - Base(c, m)) <= Cap(m - c.slewMono)
    ensures c.slewRemaining >= 0 ==> Base(c, m) <= WallAt(c, m) <= Base(c, m) + c.slewRemaining
    ensures c.slewRemaining <= 0 ==> Base(c, m) + c.slewRemaining <= WallAt(c, m) <= Base(c, m)
    ensures m >= c.slewMono ==>
              (WallAt(c, m) == Base(c, m) + c.slewRemaining <==> Cap(m - c.slewMono) >= Abs(c.slewRemaining))
  {
    CorrectionIs(c, m);
    if m >= c.slewMono { CapGrows(0, m - c.slewMono); }
  }

  // ---------------------------------------------------------------- the first resync after an anchor

  /** A resync of a clock that has nothing left to correct: no reading up to the resync instant
      changes, readings never run backwards, every reading after it lies between the old line and
      the hard line and within 500 ppm of the old one, and once the cap covers the gap the clock
      is exactly the hard anchor's. */
  lemma FirstResync(c: Clock, wall: int, mono: int, m: int)
    requires c.synced && c.slewRemaining == 0
    ensures var r := Resynced(c, wall, mono); var hard := HardLine(wall, mono, m); var gap := wall - WallAt(c, mono);
            && (m <= mono ==> WallAt(r, m) == WallAt(c, m))
            && (gap >= 0 ==> WallAt(c, m) <= WallAt(r, m) <= hard)
            && (gap <= 0 ==> hard <= WallAt(r, m) <= WallAt(c, m))
            && (m >= mono ==> Abs(WallAt(r, m) - WallAt(c, m)) <= Cap(m - mono))
            && (m >= mono ==> (WallAt(r, m) == hard <==> Cap(m - mono) >= Abs(gap)))
  {
    SlewIsBounded(Resynced(c, wall, mono), m);
  }

  // ---------------------------------------------------------------- any later resync

  /** A resync steps the clock by exactly the correction already let in, and takes it back. */
  lemma ResyncSteps(c: Clock, wall: int, mono: int)
    requires c.synced
    ensures var r := Resynced(c, wall, mono);
            && WallAt(r, mono) == WallAt(c, mono) - Correction(c, mono)
            && WallAt(r, mono) == Base(c, mono)
  {
    CorrectionIs(Resynced(c, wall, mono), mono);
  }

  /** So "without stepping" is what the code does exactly when nothing has been let in yet: no
      correction is pending, or the last one began less than two milliseconds ago. */
  lemma ResyncIsContinuousExactly(c: Clock, wall: int, mono: int)
    requires c.synced
    ensures WallAt(Resynced(c, wall, mono), mono) == WallAt(c, mono)
            <==> c.slewRemaining == 0 || mono - c.slewMono < 2000
  {
    ResyncSteps(c, wall, mono);
    CorrectionIs(c, mono);
    if mono > c.slewMono { CapGrows(mono - c.slewMono, mono - c.slewMono); }
  }

  /** Nor does such a clock ever reach the hard line: it settles exactly the dropped correction
      short of it. */
  lemma LaterResyncSettlesShort(c: Clock, wall: int, mono: int, m: int)
    requires c.synced && m >= mono && Cap(m - mono) >= Abs(wall - WallAt(c, mono))
    ensures WallAt(Resynced(c, wall, mono), m) == HardLine(wall, mono, m) - Correction(c, mono)
  {
    SlewIsBounded(Resynced(c, wall, mono), m);
  }

  /** A device that has caught up with its host and is resynced by a perfect sample steps back by
      the whole gap it had made up. */
  lemma PerfectResyncUndoesTheSlew(c: Clock, wall: int, mono: int, later: int)
    requires c.synced && c.slewRemaining == 0 && later >= mono
    requires Cap(later - mono) >= Abs(wall - WallAt(c, mono))
    ensures var r := Resynced(c, wall, mono); var truth := WallAt(r, later);
            && truth == HardLine(wall, mono, later)
            && WallAt(Resynced(r, truth, later), later) == truth - (wall - WallAt(c, mono))
  {
    FirstResync(c, wall, mono, later);
    var r := Resynced(c, wall, mono);
    ResyncSteps(r, WallAt(r, later), later);
  }

  /** The smallest case: one microsecond made up over two milliseconds is lost at the next resync. */
  lemma SecondResyncStepsBack(c: Clock, now: int)
    requires c == Clock(0, 0, 0, 1, true) && now == 2000
    ensures WallAt(c, now) == 2001
    ensures WallAt(Resynced(c, 2001, now), now) == 2000
  {
    CapGrows(now, now);
    assert Cap(now) == 1;
    CorrectionIs(c, now);
    assert Correction(c, now) == 1;
    assert WallAt(c, now) == 2001;
    ResyncSteps(c, 2001, now);
  }

  // ---------------------------------------------------------------- whole runs of resyncs

  datatype Sample = Sample(wall: int, mono: int)

  function ResyncedBy(c: Clock, samples: seq<Sample>): (c': Clock)
    decreases |samples|
  {
    if samples == [] then c
    else var k := |samples| - 1; Resynced(ResyncedBy(c, samples[..k]), samples[k].wall, samples[k].mono)
  }

  /** No run of resyncs ever moves the line that the corrections are added to: a settled clock
      reads the first anchor's line plus the last gap alone. */
  lemma {:induction false} RunsKeepTheFirstAnchor(wall: int, mono: int, samples: seq<Sample>, m: int)
    ensures var c := ResyncedBy(Anchored(wall, mono), samples);
            c.synced && Base(c, m) == HardLine(wall, mono, m)
    ensures samples != [] ==>
              var last := samples[|samples| - 1]; var k := |samples| - 1;
              var before := ResyncedBy(Anchored(wall, mono), samples[..k]);
              m >= last.mono && Cap(m - last.mono) >= Abs(last.wall - WallAt(before, last.mono)) ==>
                WallAt(ResyncedBy(Anchored(wall, mono), samples), m)
                  == HardLine(wall, mono, m) + last.wall - WallAt(before, last.mono)
    decreases |samples|
  {
    CorrectionIs(Anchored(wall, mono), m);
    if samples != [] {
      var k := |samples| - 1;
      RunsKeepTheFirstAnchor(wall, mono, samples[..k], m);
      SlewIsBounded(ResyncedBy(Anchored(wall, mono), samples), m);
    }
  }

  // ---------------------------------------------------------------- how far off it can get

  /** After n resyncs, by samples at most `slack` off, against a wall clock that is theta ahead of
      the monotonic one. */
  ghost predicate Near(c: Clock, theta: int, slack: int, n: nat) {
    && Abs(Base(c, 0) - theta) <= slack
    && (n % 2 == 0 ==> Abs(c.slewRemaining) <= n * slack)
    && (n % 2 == 1 ==> Abs(Base(c, 0) - theta + c.slewRemaining) <= n * slack)
  }

  /** The largest odd number up to n + 1. */
  function Worst(n: nat): (k: nat) {
    if n % 2 == 0 then n + 1 else n
  }

  lemma AtLeastOnce(n: nat, slack: int)
    requires slack >= 0
    ensures n >= 1 ==> n * slack >= slack
    ensures (n + 1) * slack == n * slack + slack && n * slack >= 0
  {
    if n >= 1 {
      var m := n - 1;
      assert n * slack == m * slack + slack;
      assert m * slack >= 0;
    }
  }

  /** What every edge is converted with: off by at most (n + 1) slacks, or n for an odd n. */
  lemma NearReads(c: Clock, theta: int, slack: int, n: nat, m: int)
    requires Near(c, theta, slack, n)
    ensures Abs(WallAt(c, m) - (m + theta)) <= Worst(n) * slack
  {
    SlewIsBounded(c, m);
    AtLeastOnce(n, slack);
  }

  lemma AnchoredIsNear(theta: int, slack: int, wall: int, mono: int)
    requires Abs(wall - (mono + theta)) <= slack
    ensures Near(Anchored(wall, mono), theta, slack, 0)
  {
    assert 0 * slack == 0;
  }

  lemma ResyncedIsNear(c: Clock, theta: int, slack: int, n: nat, wall: int, mono: int)
    requires c.synced && Near(c, theta, slack, n) && Abs(wall - (mono + theta)) <= slack
    ensures Near(Resynced(c, wall, mono), theta, slack, n + 1)
  {
    SlewIsBounded(c, mono);
    AtLeastOnce(n, slack);
  }

  /** Every sample is at most `slack` off. */
  ghost predicate SamplesWithin(theta: int, slack: int, samples: seq<Sample>) {
    forall i :: 0 <= i < |samples| ==> Abs(samples[i].wall - (samples[i].mono + theta)) <= slack
  }

  lemma {:induction false} RunsStayNear(c: Clock, theta: int, slack: int, samples: seq<Sample>)
    requires c.synced && Near(c, theta, slack, 0) && SamplesWithin(theta, slack, samples)
    ensures ResyncedBy(c, samples).synced && Near(ResyncedBy(c, samples), theta, slack, |samples|)
    decreases |samples|
  {
    if samples != [] {
      var k := |samples| - 1;
      RunsStayNear(c, theta, slack, samples[..k]);
      ResyncedIsNear(ResyncedBy(c, samples[..k]), theta, slack, k, samples[k].wall, samples[k].mono);
    }
  }

  /** After any run of n resyncs, at any moments, by samples at most `slack` off, a reading at any
      m, before or after them, is off by at most (n + 1) slacks, or n for an odd n. */
  lemma RunsReadWithin(theta: int, slack: int, first: Sample, samples: seq<Sample>, m: int)
    requires Abs(first.wall - (first.mono + theta)) <= slack && SamplesWithin(theta, slack, samples)
    ensures Abs(WallAt(ResyncedBy(Anchored(first.wall, first.mono), samples), m) - (m + theta)) <= Worst(|samples|) * slack
  {
    AnchoredIsNear(theta, slack, first.wall, first.mono);
    RunsStayNear(Anchored(first.wall, first.mono), theta, slack, samples);
    NearReads(ResyncedBy(Anchored(first.wall, first.mono), samples), theta, slack, |samples|, m);
  }

  const TEN_MS: int := 10_000

  /** When the k-th resync happens in the worst run: a whole number of resync intervals of five
      minutes after the one before, enough for the slew to have settled. */
  function WorstMono(k: nat): (mono: int) {
    if k == 0 then 1_100_000 else WorstMono(k - 1) + 300_000_000 * k
  }

  /** Samples 10 ms late and 10 ms early by turns. */
  function WorstSample(k: nat): (s: Sample) {
    Sample(WorstMono(k) + (if k % 2 == 1 then -TEN_MS else TEN_MS), WorstMono(k))
  }

  function WorstStart(): (c: Clock) {
    Anchored(WorstSample(0).wall, WorstSample(0).mono)
  }

  function WorstRun(n: nat): (samples: seq<Sample>)
    ensures |samples| == n
  {
    if n == 0 then [] else WorstRun(n - 1) + [WorstSample(n)]
  }

  ghost predicate AtItsWorst(c: Clock, n: nat) {
    && c.synced && Base(c, 0) == TEN_MS && c.slewMono == WorstMono(n)
    && c.slewRemaining == if n % 2 == 1 then -(n + 1) * TEN_MS else n * TEN_MS
  }

  lemma WorstIsRead(c: Clock, n: nat)
    requires AtItsWorst(c, n)
    ensures WallAt(c, WorstMono(n + 1)) - WorstMono(n + 1) == if n % 2 == 1 then -(Worst(n) * TEN_MS) else Worst(n) * TEN_MS
  {
    var m := WorstMono(n + 1);
    CapGrows(m - c.slewMono, m - c.slewMono);
    SlewIsBounded(c, m);
  }

  lemma WorstStep(c: Clock, n: nat)
    requires AtItsWorst(c, n)
    ensures AtItsWorst(Resynced(c, WorstSample(n + 1).wall, WorstSample(n + 1).mono), n + 1)
  {
    WorstIsRead(c, n);
  }

  lemma ResyncedByOneMore(c: Clock, samples: seq<Sample>, s: Sample)
    ensures ResyncedBy(c, samples + [s]) == Resynced(ResyncedBy(c, samples), s.wall, s.mono)
  {
    assert (samples + [s])[..|samples|] == samples;
  }

  lemma {:induction false} WorstRunIs(n: nat, start: Clock)
    requires start == WorstStart()
    ensures AtItsWorst(ResyncedBy(start, WorstRun(n)), n)
  {
    if n > 0 {
      var before := ResyncedBy(start, WorstRun(n - 1));
      WorstRunIs(n - 1, start);
      WorstStep(before, n - 1);
      ResyncedByOneMore(start, WorstRun(n - 1), WorstSample(n));
    }
  }

  /** The bound is reached, so there is none for all runs: samples that are never more than 10 ms
      off put the clock Worst(n) times 10 ms off after n resyncs, for every n. */
  lemma ErrorGrowsWithoutBound(n: nat, c: Clock)
    requires c == ResyncedBy(WorstStart(), WorstRun(n))
    ensures Abs(WorstSample(n).wall - WorstSample(n).mono) <= TEN_MS
    ensures Abs(WallAt(c, WorstMono(n + 1)) - WorstMono(n + 1)) == Worst(n) * TEN_MS
  {
    WorstRunIs(n, WorstStart());
    WorstIsRead(c, n);
  }

  // ---------------------------------------------------------------- the folded variant

  /** The same resync with the correction already let in folded into the anchor. */
  function FoldedResync(c: Clock, wall: int, mono: int): (c': Clock) {
    if !c.synced then Anchored(wall, mono)
    else Clock(WallAt(c, mono), mono, mono, wall - WallAt(c, mono), true)
  }

  /** It is continuous at every resync and always settles on the hard line. */
  lemma FoldedNeverSteps(c: Clock, wall: int, mono: int, m: int)
    requires c.synced
    ensures var r := FoldedResync(c, wall, mono);
            && WallAt(r, mono) == WallAt(c, mono)
            && (m >= mono && Cap(m - mono) >= Abs(wall - WallAt(c, mono)) ==> WallAt(r, m) == HardLine(wall, mono, m))
  {
    var r := FoldedResync(c, wall, mono);
    CorrectionIs(r, mono);
    SlewIsBounded(r, m);
  }

  // ---------------------------------------------------------------- the time base as it runs

  class TimeBase {
    var wallAnchorUs: int
    var monoAnchorUs: int
    var slewMonoUs: int
    var slewRemainingUs: int
    var isSynced: bool

    function St(): (c: Clock)
      reads this
    {
      Clock(wallAnchorUs, monoAnchorUs, slewMonoUs, slewRemainingUs, isSynced)
    }

    constructor ()
      ensures St() == Unset
    {
      wallAnchorUs, monoAnchorUs, slewMonoUs, slewRemainingUs, isSynced := 0, 0, 0, 0, false;
    }

    method Anchor(wallUs: int, monoUs: int)
      modifies this
      ensures St() == Anchored(wallUs, monoUs)
    {
      wallAnchorUs := wallUs;
      monoAnchorUs := monoUs;
      slewMonoUs := monoUs;
      slewRemainingUs := 0;
      isSynced := true;
    }

    method ReanchorSlewed(wallUs: int, monoUs: int)
      modifies this
      ensures St() == Resynced(old(St()), wallUs, monoUs)
    {
      if !isSynced {
        Anchor(wallUs, monoUs);
        return;
      }
      var now := ToWallUs(monoUs);
      slewRemainingUs := wallUs - now;
      slewMonoUs := monoUs;
    }

    method Invalidate()
      modifies this
      ensures St() == old(St()).(synced := false)
    {
      isSynced := false;
    }

    method ToWallUs(monoUs: int) returns (wallUs: int)
      ensures wallUs == WallAt(St(), monoUs)
    {
      var base := wallAnchorUs + (monoUs - monoAnchorUs);
      if slewRemainingUs == 0 { return base; }
      var elapsedUs := monoUs - slewMonoUs;
      if elapsedUs <= 0 { return base; }
      var maxAppliedUs := TruncDiv(elapsedUs * MAX_SLEW_PPM, MILLION);
      var applied := slewRemainingUs;
      if slewRemainingUs >= 0 {
        if maxAppliedUs < slewRemainingUs { applied := maxAppliedUs; }
      } else {
        if -maxAppliedUs > slewRemainingUs { applied := -maxAppliedUs; }
      }
      return base + applied;
    }
  }
}
