/** The minimum-delay filter over four-timestamp exchanges (firmware/lib/timebase/offset_filter.cpp;
    the exchange of section 8 of RFC 5905, the filter compare section 10). */
module OffsetFilter {
  import opened Common

  const MAX_DELAY_US: int := 20_000

  /** Client send, host receive, host send (both wall clock), client receive. */
  datatype Sample = Sample(t1: int, t2rx: int, t2tx: int, t3: int)

  datatype Best = Best(have: bool, delay: int, offset: int)

  const Empty: Best := Best(false, 0, 0)

  function DelayOf(s: Sample): (us: int) {
    (s.t3 - s.t1) - (s.t2tx - s.t2rx)
  }

  function OffsetOf(s: Sample): (us: int) {
    TruncDiv((s.t2rx - s.t1) + (s.t2tx - s.t3), 2)
  }

  predicate Accepts(s: Sample) {
    !(DelayOf(s) < 0 || DelayOf(s) > MAX_DELAY_US)
  }

  function Added(b: Best, s: Sample): (b': Best) {
    if !Accepts(s) then b
    else if !b.have || DelayOf(s) < b.delay then Best(true, DelayOf(s), OffsetOf(s))
    else b
  }

  function Fed(samples: seq<Sample>): (b: Best)
    decreases |samples|
  {
    if samples == [] then Empty else Added(Fed(samples[..|samples| - 1]), samples[|samples| - 1])
  }

  /** The filter keeps the first of the accepted samples of least delay. */
  ghost predicate IsBestOf(b: Best, samples: seq<Sample>, i: int) {
    && 0 <= i < |samples| && Accepts(samples[i])
    && b == Best(true, DelayOf(samples[i]), OffsetOf(samples[i]))
    && (forall j :: 0 <= j < |samples| && Accepts(samples[j]) ==> DelayOf(samples[i]) <= DelayOf(samples[j]))
    && (forall j :: 0 <= j < i && Accepts(samples[j]) ==> DelayOf(samples[i]) < DelayOf(samples[j]))
  }

  lemma {:induction false} KeepsFirstLeastDelay(samples: seq<Sample>)
    ensures !Fed(samples).have <==> (forall i :: 0 <= i < |samples| ==> !Accepts(samples[i]))
    ensures !Fed(samples).have ==> Fed(samples) == Empty
    ensures Fed(samples).have ==> exists i :: IsBestOf(Fed(samples), samples, i)
    decreases |samples|
  {
    if samples != [] {
      var k := |samples| - 1;
      var before := samples[..k];
      KeepsFirstLeastDelay(before);
      assert forall i :: 0 <= i < k ==> before[i] == samples[i];
      assert !Fed(samples).have ==> !Accepts(samples[k]);
      if Fed(samples).have {
        if Fed(before).have && Fed(samples) == Fed(before) {
          var i :| IsBestOf(Fed(before), before, i);
          assert IsBestOf(Fed(samples), samples, i);
        } else {
          assert IsBestOf(Fed(samples), samples, k);
        }
      }
    }
  }

  // ---------------------------------------------------------------- how good the estimate is

  /** The sample is a real exchange with a host whose wall clock is theta ahead of the client's
      clock: sent at t1, `out` on the way there, `hold` at the host, `back` on the way here. */
  ghost predicate Genuine(theta: int, s: Sample, out: int, hold: int, back: int) {
    && out >= 0 && back >= 0
    && s.t2rx == s.t1 + out + theta
    && s.t2tx == s.t2rx + hold
    && s.t3 == s.t2tx - theta + back
  }

  ghost predicate IsGenuine(theta: int, s: Sample) {
    exists out, hold, back :: Genuine(theta, s, out, hold, back)
  }

  function CeilHalf(x: int): (h: int)
    requires x >= 0
  {
    (x + 1) / 2
  }

  /** The estimate is within half the round trip, rounded up, of the truth. */
  ghost predicate Within(theta: int, offset: int, delay: int) {
    delay >= 0 && -CeilHalf(delay) <= offset - theta <= CeilHalf(delay)
  }

  /** A genuine sample is accepted exactly when its way there and back took at most 20 ms, however
      long the host held it. */
  lemma AcceptedExactly(theta: int, s: Sample, out: int, hold: int, back: int)
    requires Genuine(theta, s, out, hold, back)
    ensures Accepts(s) <==> out + back <= 20_000
  {
  }

  lemma SampleError(theta: int, s: Sample, out: int, hold: int, back: int)
    requires Genuine(theta, s, out, hold, back)
    ensures DelayOf(s) == out + back
    ensures Within(theta, OffsetOf(s), DelayOf(s))
  {
    assert (s.t2rx - s.t1) + (s.t2tx - s.t3) == 2 * theta + out - back;
  }

  /** Adding a genuine sample keeps the best estimate within half its own delay and within 10 ms. */
  ghost predicate Accurate(theta: int, b: Best) {
    b.have ==> Within(theta, b.offset, b.delay) && b.delay <= MAX_DELAY_US
  }

  lemma AddedIsAccurate(theta: int, b: Best, s: Sample)
    requires Accurate(theta, b) && IsGenuine(theta, s)
    ensures Accurate(theta, Added(b, s))
  {
    var out, hold, back :| Genuine(theta, s, out, hold, back);
    SampleError(theta, s, out, hold, back);
  }

  /** Whatever replies arrive, in whatever order, late, repeated or not at all: the estimate is
      within ceil(least accepted delay / 2) of the true offset, and never more than 10 ms off.
      The reply carries its own t1, so a late one is measured against the request it answers. */
  lemma {:induction false} EstimateIsClose(theta: int, samples: seq<Sample>)
    requires forall i :: 0 <= i < |samples| ==> IsGenuine(theta, samples[i])
    ensures Accurate(theta, Fed(samples))
    ensures Fed(samples).have ==> -10_000 <= Fed(samples).offset - theta <= 10_000
    ensures Fed(samples).have ==>
              forall j :: 0 <= j < |samples| && Accepts(samples[j]) ==>
                Fed(samples).offset - theta <= CeilHalf(DelayOf(samples[j])) &&
                theta - Fed(samples).offset <= CeilHalf(DelayOf(samples[j]))
    decreases |samples|
  {
    if samples != [] {
      var k := |samples| - 1;
      assert forall i :: 0 <= i < k ==> samples[..k][i] == samples[i];
      EstimateIsClose(theta, samples[..k]);
      AddedIsAccurate(theta, Fed(samples[..k]), samples[k]);
      KeepsFirstLeastDelay(samples);
    }
  }

  /** A reply that was 15 ms on the way in each direction, from a host with the same clock. */
  const LATE: Sample := Sample(0, 15_000, 15_000, 30_000)

  /** Were t1 remembered from the last request instead of echoed, one late reply could pass the
      filter and put the clock more than 10 ms off. */
  lemma RememberedSendTimeMisleads()
    ensures IsGenuine(0, LATE) && !Accepts(LATE)
    ensures Accepts(LATE.(t1 := 25_000)) && OffsetOf(LATE.(t1 := 25_000)) < -10_000
  {
    Witness(0, LATE, 15_000, 0, 15_000);
  }

  lemma Witness(theta: int, s: Sample, out: int, hold: int, back: int)
    requires Genuine(theta, s, out, hold, back)
    ensures IsGenuine(theta, s)
  {
  }

  // ---------------------------------------------------------------- the filter as it runs

  class OffsetFilter {
    var haveBest: bool
    var bestDelayUs: int
    var bestOffsetUs: int

    function St(): (b: Best)
      reads this
    {
      Best(haveBest, bestDelayUs, bestOffsetUs)
    }

    constructor ()
      ensures St() == Empty
    {
      haveBest, bestDelayUs, bestOffsetUs := false, 0, 0;
    }

    method Reset()
      modifies this
      ensures St() == Empty
    {
      haveBest := false;
      bestDelayUs := 0;
      bestOffsetUs := 0;
    }

    method AddSample(t1: int, t2rx: int, t2tx: int, t3: int) returns (ok: bool)
      modifies this
      ensures ok == Accepts(Sample(t1, t2rx, t2tx, t3))
      ensures St() == Added(old(St()), Sample(t1, t2rx, t2tx, t3))
    {
      var delay := (t3 - t1) - (t2tx - t2rx);
      if delay < 0 || delay > MAX_DELAY_US { return false; }
      var offset := TruncDiv((t2rx - t1) + (t2tx - t3), 2);
      if !haveBest || delay < bestDelayUs {
        haveBest := true;
        bestDelayUs := delay;
        bestOffsetUs := offset;
      }
      return true;
    }
  }
}
