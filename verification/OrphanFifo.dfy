/** The FIFO of orphan start triggers (internal/web/course_manager.go).
    The functions say what each locked section does to the list as a value;
    the class edits one Go slice in place and is proved against them. */
module OrphanFifo {
  import opened Common

  datatype OrphanRun = OrphanRun(id: int, tStart: int, atMs: int)

  predicate Increasing(rs: seq<OrphanRun>) {
    forall i, j :: 0 <= i < j < |rs| ==> rs[i].id < rs[j].id
  }

  predicate Expired(r: OrphanRun, refUs: int, maxSec: int) {
    refUs - r.tStart > maxSec * 1000000
  }

  /** The runs of `rs` that a prune at `refUs` keeps (or, with `expired`, removes), in order. */
  function Select(rs: seq<OrphanRun>, refUs: int, maxSec: int, expired: bool): (out: seq<OrphanRun>) {
    if rs == [] then []
    else
      var rest := Select(rs[..|rs| - 1], refUs, maxSec, expired);
      var last := rs[|rs| - 1];
      if Expired(last, refUs, maxSec) == expired then rest + [last] else rest
  }

  function Kept(rs: seq<OrphanRun>, refUs: int, maxSec: int): (out: seq<OrphanRun>) {
    Select(rs, refUs, maxSec, false)
  }

  function Pruned(rs: seq<OrphanRun>, refUs: int, maxSec: int): (out: seq<OrphanRun>) {
    Select(rs, refUs, maxSec, true)
  }

  /** Where the run with this id sits, or the length if it is not queued. */
  function IndexOf(rs: seq<OrphanRun>, id: int): (i: nat)
    ensures i <= |rs|
    ensures i < |rs| ==> rs[i].id == id
    ensures forall k :: 0 <= k < i ==> rs[k].id != id
  {
    if rs == [] then 0
    else if rs[0].id == id then 0
    else 1 + IndexOf(rs[1..], id)
  }

  /** The list after taking out the run with this id. */
  function Without(rs: seq<OrphanRun>, id: int): (out: seq<OrphanRun>) {
    var i := IndexOf(rs, id);
    if i == |rs| then rs else rs[..i] + rs[i + 1..]
  }

  /** The number of leading runs with an id below this one. */
  function Slot(rs: seq<OrphanRun>, id: int): (i: nat)
    ensures i <= |rs|
    ensures forall k :: 0 <= k < i ==> rs[k].id < id
    ensures i < |rs| ==> rs[i].id >= id
  {
    if rs == [] || rs[0].id >= id then 0 else 1 + Slot(rs[1..], id)
  }

  /** The list after putting a run back at the place its id gives it. */
  function Restored(rs: seq<OrphanRun>, run: OrphanRun): (out: seq<OrphanRun>) {
    var i := Slot(rs, run.id);
    rs[..i] + [run] + rs[i..]
  }

  // ---------------------------------------------------------------- properties

  /** Selecting goes run by run. */
  lemma SelectNext(rs: seq<OrphanRun>, n: nat, refUs: int, maxSec: int)
    requires n < |rs|
    ensures Kept(rs[..n + 1], refUs, maxSec)
            == Kept(rs[..n], refUs, maxSec) + if Expired(rs[n], refUs, maxSec) then [] else [rs[n]]
    ensures Pruned(rs[..n + 1], refUs, maxSec)
            == Pruned(rs[..n], refUs, maxSec) + if Expired(rs[n], refUs, maxSec) then [rs[n]] else []
  {
    assert rs[..n + 1][..n] == rs[..n];
  }

  /** Pruning splits the list: every run lands on exactly one side, the kept side
      holds exactly the unexpired ones, and nothing is invented or duplicated. */
  lemma {:induction false} SelectSound(rs: seq<OrphanRun>, refUs: int, maxSec: int, expired: bool)
    ensures forall r :: r in Select(rs, refUs, maxSec, expired) <==> r in rs && Expired(r, refUs, maxSec) == expired
    ensures |Kept(rs, refUs, maxSec)| + |Pruned(rs, refUs, maxSec)| == |rs|
    ensures multiset(Kept(rs, refUs, maxSec)) + multiset(Pruned(rs, refUs, maxSec)) == multiset(rs)
  {
    if rs != [] {
      var front, last := rs[..|rs| - 1], rs[|rs| - 1];
      SelectSound(front, refUs, maxSec, expired);
      assert rs == front + [last];
      forall r ensures r in Select(rs, refUs, maxSec, expired) <==> r in rs && Expired(r, refUs, maxSec) == expired {
        assert r in rs <==> r in front || r == last;
        assert Select(rs, refUs, maxSec, expired) ==
               if Expired(last, refUs, maxSec) == expired then Select(front, refUs, maxSec, expired) + [last]
               else Select(front, refUs, maxSec, expired);
      }
    }
  }

  /** A prune is stable: what it keeps and what it removes stay in increasing order of id. */
  lemma {:induction false} SelectIncreasing(rs: seq<OrphanRun>, refUs: int, maxSec: int, expired: bool)
    requires Increasing(rs)
    ensures Increasing(Select(rs, refUs, maxSec, expired))
  {
    if rs != [] {
      var front, last := rs[..|rs| - 1], rs[|rs| - 1];
      SelectIncreasing(front, refUs, maxSec, expired);
      SelectSound(front, refUs, maxSec, expired);
      var rest := Select(front, refUs, maxSec, expired);
      forall i | 0 <= i < |rest| ensures rest[i].id < last.id {
        assert rest[i] in front;
      }
    }
  }

  // ---------------------------------------------------------------- the prune, said without it

  /** A trigger at tUs comes too late for the run. */
  predicate TooOld(run: OrphanRun, tUs: int, maxSec: int) {
    tUs - run.tStart > maxSec * 1_000_000
  }

  /** The oldest run of the FIFO that a trigger at tUs is still in time for. */
  ghost predicate IsOldestInTime(fifo: seq<OrphanRun>, run: OrphanRun, tUs: int, maxSec: int) {
    && run in fifo && !TooOld(run, tUs, maxSec)
    && forall r :: r in fifo && !TooOld(r, tUs, maxSec) ==> run.id <= r.id
  }

  /** `rest` is what is left of the FIFO, in its order, when the runs too old for tUs are gone. */
  ghost predicate IsInTime(fifo: seq<OrphanRun>, rest: seq<OrphanRun>, tUs: int, maxSec: int) {
    Increasing(rest) && forall r :: r in rest <==> r in fifo && !TooOld(r, tUs, maxSec)
  }

  ghost predicate IsTooOld(fifo: seq<OrphanRun>, gone: seq<OrphanRun>, tUs: int, maxSec: int) {
    Increasing(gone) && forall r :: r in gone <==> r in fifo && TooOld(r, tUs, maxSec)
  }

  lemma Partition(fifo: seq<OrphanRun>, tUs: int, maxSec: int)
    requires Increasing(fifo)
    ensures IsInTime(fifo, Kept(fifo, tUs, maxSec), tUs, maxSec) && IsTooOld(fifo, Pruned(fifo, tUs, maxSec), tUs, maxSec)
  {
    SelectIncreasing(fifo, tUs, maxSec, false);
    SelectSound(fifo, tUs, maxSec, false);
    SelectIncreasing(fifo, tUs, maxSec, true);
    SelectSound(fifo, tUs, maxSec, true);
  }

  lemma {:induction false} SameRuns(a: seq<OrphanRun>, b: seq<OrphanRun>)
    requires Increasing(a) && Increasing(b) && forall r :: r in a <==> r in b
    ensures a == b
    decreases |a|
  {
    assert |b| > 0 ==> b[0] in b;
    if a != [] {
      var x := a[0];
      assert x in a && x in b;
      var y := b[0];
      assert y in b && y in a;
      LeastFirst(a, y);
      LeastFirst(b, x);
      OnlyOneWithId(a, x, y);
      TailRuns(a);
      TailRuns(b);
      SameRuns(a[1..], b[1..]);
      assert a == [a[0]] + a[1..] && b == [b[0]] + b[1..];
    }
  }

  lemma LeastFirst(rs: seq<OrphanRun>, r: OrphanRun)
    requires Increasing(rs) && r in rs
    ensures rs[0].id <= r.id
  {
    var k :| 0 <= k < |rs| && rs[k] == r;
  }

  lemma OnlyOneWithId(rs: seq<OrphanRun>, x: OrphanRun, y: OrphanRun)
    requires Increasing(rs) && x in rs && y in rs && x.id == y.id
    ensures x == y
  {
    var i :| 0 <= i < |rs| && rs[i] == x;
    var j :| 0 <= j < |rs| && rs[j] == y;
  }

  lemma TailRuns(rs: seq<OrphanRun>)
    requires Increasing(rs) && rs != []
    ensures Increasing(rs[1..]) && forall r :: r in rs[1..] <==> r in rs && r != rs[0]
  {
    assert rs == [rs[0]] + rs[1..];
    forall r | r in rs[1..] ensures r != rs[0] {
      var k :| 0 <= k < |rs[1..]| && rs[1..][k] == r;
      assert rs[k + 1] == r;
    }
  }

  /** The run at the head of what a prune keeps is the kept run with the least id:
      that is the one the next goal trigger is paired with. */
  lemma HeadIsOldest(rs: seq<OrphanRun>, refUs: int, maxSec: int)
    requires Increasing(rs) && Kept(rs, refUs, maxSec) != []
    ensures var head := Kept(rs, refUs, maxSec)[0];
            head in rs && !Expired(head, refUs, maxSec) &&
            forall r :: r in rs && !Expired(r, refUs, maxSec) && r != head ==> head.id < r.id
  {
    SelectSound(rs, refUs, maxSec, false);
    SelectIncreasing(rs, refUs, maxSec, false);
    var kept := Kept(rs, refUs, maxSec);
    assert kept[0] in kept;
    forall r | r in rs && !Expired(r, refUs, maxSec) && r != kept[0] ensures kept[0].id < r.id {
      var k :| 0 <= k < |kept| && kept[k] == r;
    }
  }

  lemma IndexOfPresent(rs: seq<OrphanRun>, i: nat)
    requires Increasing(rs) && i < |rs|
    ensures IndexOf(rs, rs[i].id) == i
  {
    var k := IndexOf(rs, rs[i].id);
    assert k <= i;
    assert !(k < i);
  }

  lemma DroppedAt(rs: seq<OrphanRun>, i: nat, out: seq<OrphanRun>)
    requires Increasing(rs) && i < |rs| && out == rs[..i] + rs[i + 1..]
    ensures Increasing(out)
    ensures forall r :: r in out <==> r in rs && r != rs[i]
  {
    assert forall k :: 0 <= k < |out| ==> out[k] == rs[if k < i then k else k + 1];
    forall r | r in rs && r != rs[i] ensures r in out {
      var k :| 0 <= k < |rs| && rs[k] == r;
      assert r == out[if k < i then k else k - 1];
    }
    forall r | r in out ensures r in rs && r != rs[i] {
      var k :| 0 <= k < |out| && out[k] == r;
      assert r == rs[if k < i then k else k + 1];
    }
  }

  lemma IndexIs(rs: seq<OrphanRun>, id: int, i: nat)
    requires i <= |rs|
    requires forall k :: 0 <= k < i ==> rs[k].id != id
    requires i < |rs| ==> rs[i].id == id
    ensures IndexOf(rs, id) == i
  {
    var s := IndexOf(rs, id);
    assert s <= i;
    assert !(s < i);
  }

  lemma WithoutIncreasing(rs: seq<OrphanRun>, id: int)
    requires Increasing(rs)
    ensures Increasing(Without(rs, id))
    ensures forall r :: r in Without(rs, id) <==> r in rs && r.id != id
  {
    var i := IndexOf(rs, id);
    if i < |rs| {
      DroppedAt(rs, i, Without(rs, id));
      forall r | r in rs && r.id == id ensures r == rs[i] { OneRunPerId(rs, r, rs[i]); }
    }
  }

  lemma OneRunPerId(rs: seq<OrphanRun>, a: OrphanRun, b: OrphanRun)
    requires Increasing(rs) && a in rs && b in rs && a.id == b.id
    ensures a == b
  {
    var i :| 0 <= i < |rs| && rs[i] == a;
    var j :| 0 <= j < |rs| && rs[j] == b;
    assert i == j;
  }

  lemma InsertedAt(rs: seq<OrphanRun>, i: nat, run: OrphanRun, out: seq<OrphanRun>)
    requires Increasing(rs) && i <= |rs| && out == rs[..i] + [run] + rs[i..]
    requires forall k :: 0 <= k < i ==> rs[k].id < run.id
    requires i < |rs| ==> run.id < rs[i].id
    ensures Increasing(out)
  {
    assert forall k :: 0 <= k < i ==> out[k] == rs[k];
    assert out[i] == run;
    assert forall k :: i < k < |out| ==> out[k] == rs[k - 1];
    forall k | i <= k < |rs| ensures run.id < rs[k].id {
    }
  }

  lemma MembersInserted(rs: seq<OrphanRun>, i: nat, run: OrphanRun, out: seq<OrphanRun>)
    requires i <= |rs| && out == rs[..i] + [run] + rs[i..]
    ensures forall r :: r in out <==> r in rs || r == run
  {
    assert rs == rs[..i] + rs[i..];
  }

  lemma RestoredIncreasing(rs: seq<OrphanRun>, run: OrphanRun)
    requires Increasing(rs)
    requires forall r :: r in rs ==> r.id != run.id
    ensures Increasing(Restored(rs, run))
    ensures forall r :: r in Restored(rs, run) <==> r in rs || r == run
  {
    var i := Slot(rs, run.id);
    if i < |rs| { assert rs[i] in rs; }
    InsertedAt(rs, i, run, Restored(rs, run));
    MembersInserted(rs, i, run, Restored(rs, run));
  }

  /** The id of a run names its slot: in an increasing list where everything before `i` is
      older and everything from `i` on is newer, `i` is the slot. */
  lemma SlotIs(rs: seq<OrphanRun>, id: int, i: nat)
    requires i <= |rs|
    requires forall k :: 0 <= k < i ==> rs[k].id < id
    requires i < |rs| ==> id <= rs[i].id
    ensures Slot(rs, id) == i
  {
    var s := Slot(rs, id);
    assert s <= i;
    assert !(s < i);
  }

  /** Taking a run and putting it back is the identity, whatever its place in the list, and
      still puts it in its place when a newer run was appended in between: a goal or an
      adoption may hold a run in flight while the FIFO grows. */
  lemma TakeThenRestore(rs: seq<OrphanRun>, id: int, newer: seq<OrphanRun>)
    requires Increasing(rs) && IndexOf(rs, id) < |rs|
    requires forall r, n :: r in rs && n in newer ==> r.id < n.id
    ensures Restored(Without(rs, id) + newer, rs[IndexOf(rs, id)]) == rs + newer
  {
    var i := IndexOf(rs, id);
    var out := rs[..i] + (rs[i + 1..] + newer);
    Regroup(rs[..i], rs[i + 1..], newer);
    SlotAtGap(rs, i, newer);
    Splice(rs, i, newer, out);
  }

  lemma Regroup(a: seq<OrphanRun>, b: seq<OrphanRun>, c: seq<OrphanRun>)
    ensures (a + b) + c == a + (b + c)
  {
  }

  lemma Splice(rs: seq<OrphanRun>, i: nat, newer: seq<OrphanRun>, out: seq<OrphanRun>)
    requires i < |rs| && out == rs[..i] + (rs[i + 1..] + newer)
    ensures out[..i] + [rs[i]] + out[i..] == rs + newer
  {
    assert out[..i] == rs[..i];
    assert out[i..] == rs[i + 1..] + newer;
  }

  lemma SlotAtGap(rs: seq<OrphanRun>, i: nat, newer: seq<OrphanRun>)
    requires Increasing(rs) && i < |rs|
    requires forall r, n :: r in rs && n in newer ==> r.id < n.id
    ensures Slot(rs[..i] + (rs[i + 1..] + newer), rs[i].id) == i
  {
    var out := rs[..i] + (rs[i + 1..] + newer);
    assert forall k :: 0 <= k < i ==> out[k] == rs[k];
    if i < |out| {
      assert out[i] == if i + 1 < |rs| then rs[i + 1] else newer[0];
      assert rs[i] in rs;
      assert i + 1 == |rs| ==> out[i] in newer;
    }
    SlotIs(out, rs[i].id, i);
  }

  // ---------------------------------------------------------------- the slice

  /** A Go slice `buf[lo..hi]` of orphan runs. */
  class Fifo {
    var buf: array<OrphanRun>
    var lo: nat
    var hi: nat

    ghost predicate Valid()
      reads this
    {
      lo <= hi <= buf.Length
    }

    ghost function Contents(): (rs: seq<OrphanRun>)
      requires Valid()
      reads this, buf
    {
      buf[lo..hi]
    }

    constructor ()
      ensures Valid() && fresh(buf) && Contents() == []
    {
      buf := new OrphanRun[0];
      lo, hi := 0, 0;
    }

    /** One write over the front of the slice. */
    method Overwrite(k: nat, e: OrphanRun)
      requires Valid() && lo <= k < hi
      modifies buf
      ensures buf[lo..k + 1] == old(buf[lo..k]) + [e]
      ensures forall m :: k < m < buf.Length ==> buf[m] == old(buf[m])
    {
      buf[k] := e;
    }

    /** After `off` of the runs: the kept ones stand at the front, the rest is still to be looked at. */
    ghost predicate Pruning(all: seq<OrphanRun>, off: nat, keep: nat, refUs: int, maxSec: int, expired: seq<OrphanRun>)
      reads this, buf
    {
      && Valid() && |all| == hi - lo && keep <= off <= |all|
      && buf[lo + off..hi] == all[off..]
      && buf[lo..lo + keep] == Kept(all[..off], refUs, maxSec)
      && expired == Pruned(all[..off], refUs, maxSec)
    }

    method PruneOne(ghost all: seq<OrphanRun>, off: nat, keep: nat, refUs: int, maxSec: int, expired: seq<OrphanRun>)
        returns (keep': nat, expired': seq<OrphanRun>)
      requires Pruning(all, off, keep, refUs, maxSec, expired) && off < |all|
      modifies buf
      ensures Pruning(all, off + 1, keep', refUs, maxSec, expired')
    {
      var e := buf[lo + off];
      assert e == buf[lo + off..hi][0] == all[off];
      assert buf[lo + off + 1..hi] == all[off + 1..];
      SelectNext(all, off, refUs, maxSec);
      if refUs - e.tStart > maxSec * 1000000 {
        keep', expired' := keep, expired + [e];
      } else {
        Overwrite(lo + keep, e);
        assert buf[lo + off + 1..hi] == all[off + 1..];
        keep', expired' := keep + 1, expired;
      }
    }

    /** pruneOrphanRunsLocked: the kept runs are written over the front of the same slice. */
    method Prune(refUs: int, maxSec: int) returns (expired: seq<OrphanRun>)
      requires Valid()
      modifies this, buf
      ensures Valid() && buf == old(buf)
      ensures Contents() == Kept(old(Contents()), refUs, maxSec)
      ensures expired == Pruned(old(Contents()), refUs, maxSec)
    {
      ghost var all := Contents();
      var keep, off := 0, 0;
      expired := [];
      while off < hi - lo
        invariant Pruning(all, off, keep, refUs, maxSec, expired)
        invariant buf == old(buf)
      {
        keep, expired := PruneOne(all, off, keep, refUs, maxSec, expired);
        off := off + 1;
      }
      assert all[..off] == all;
      hi := lo + keep;
    }

    /** append: a new run goes behind the newest; a full slice moves to a larger array. */
    method Append(run: OrphanRun)
      requires Valid()
      modifies this, buf
      ensures Valid() && (buf == old(buf) || fresh(buf))
      ensures Contents() == old(Contents()) + [run]
    {
      if hi == buf.Length {
        var n := hi - lo;
        var bigger := new OrphanRun[2 * n + 1](_ => run);
        forall k | 0 <= k < n { bigger[k] := buf[lo + k]; }
        assert bigger[..n] == buf[lo..hi];
        buf, lo, hi := bigger, 0, n;
      }
      ghost var before := Contents();
      buf[hi] := run;
      hi := hi + 1;
      assert Contents() == before + [run];
    }

    method Find(id: int) returns (off: nat)
      requires Valid()
      ensures off == IndexOf(Contents(), id) && off <= hi - lo
    {
      off := 0;
      while off < hi - lo && buf[lo + off].id != id
        invariant off <= hi - lo
        invariant forall k :: 0 <= k < off ==> Contents()[k].id != id
      {
        off := off + 1;
      }
      IndexIs(Contents(), id, off);
    }

    /** takeOrphanRun: find by id, shift the tail left. */
    method Take(id: int) returns (run: Option<OrphanRun>)
      requires Valid()
      modifies this, buf
      ensures Valid() && buf == old(buf)
      ensures var before := old(Contents()); var i := IndexOf(before, id);
              && Contents() == Without(before, id)
              && run == (if i < |before| then Some(before[i]) else None)
    {
      var off := Find(id);
      if off == hi - lo {
        return None;
      }
      assert Contents()[off] == buf[lo + off];
      run := Some(buf[lo + off]);
      ShiftLeft(off);
    }

    /** append(rs[:i], rs[i+1:]...): the tail moves down one place in the same array. */
    method ShiftLeft(off: nat)
      requires Valid() && lo + off < hi
      modifies this, buf
      ensures Valid() && buf == old(buf) && lo == old(lo)
      ensures Contents() == old(Contents())[..off] + old(Contents())[off + 1..]
    {
      ghost var before := Contents();
      ghost var out := before[..off] + before[off + 1..];
      var k := lo + off;
      while k + 1 < hi
        invariant lo + off <= k < hi && hi == old(hi) && lo == old(lo) && buf == old(buf)
        invariant buf[lo..k] == out[..k - lo]
        invariant buf[k + 1..hi] == before[k + 1 - lo..]
      {
        MoveDown(k, out, before);
        k := k + 1;
      }
      hi := hi - 1;
    }

    /** One step of that copy. */
    method MoveDown(k: nat, ghost out: seq<OrphanRun>, ghost before: seq<OrphanRun>)
      requires Valid() && lo <= k && k + 1 < hi && |before| == hi - lo && |out| == |before| - 1
      requires out[k - lo] == before[k + 1 - lo]
      requires buf[lo..k] == out[..k - lo] && buf[k + 1..hi] == before[k + 1 - lo..]
      modifies buf
      ensures buf[lo..k + 1] == out[..k + 1 - lo] && buf[k + 2..hi] == before[k + 2 - lo..]
    {
      assert buf[k + 1] == buf[k + 1..hi][0];
      buf[k] := buf[k + 1];
      assert buf[lo..k + 1] == buf[lo..k] + [buf[k]];
      assert buf[k + 2..hi] == buf[k + 1..hi][1..];
    }

    /** SensorGoal's `run = orphanRuns[0]; orphanRuns = orphanRuns[1:]`. */
    method PopOldest() returns (run: Option<OrphanRun>)
      requires Valid()
      modifies this
      ensures Valid() && buf == old(buf)
      ensures var before := old(Contents());
              && Contents() == (if before == [] then [] else before[1..])
              && run == (if before == [] then None else Some(before[0]))
    {
      if lo == hi { return None; }
      run := Some(buf[lo]);
      lo := lo + 1;
    }

    method FindSlot(id: int) returns (off: nat)
      requires Valid()
      ensures off == Slot(Contents(), id) && off <= hi - lo
    {
      off := 0;
      while off < hi - lo && buf[lo + off].id < id
        invariant off <= hi - lo
        invariant forall k :: 0 <= k < off ==> Contents()[k].id < id
      {
        off := off + 1;
      }
      SlotIs(Contents(), id, off);
    }

    /** restoreOrphanRun: grow by one, shift the tail right, write the run into the gap. */
    method Restore(run: OrphanRun)
      requires Valid()
      modifies this, buf
      ensures Valid() && (buf == old(buf) || fresh(buf))
      ensures Contents() == Restored(old(Contents()), run)
    {
      var off := FindSlot(run.id);
      Append(run);
      ShiftRight(off, run);
    }

    /** copy(rs[i+1:], rs[i:]): the tail moves up one place over the last element. */
    method ShiftTail(off: nat)
      requires Valid() && lo + off < hi
      modifies buf
      ensures buf[lo..lo + off + 1] == old(buf[lo..hi])[..off + 1]
      ensures buf[lo + off + 1..hi] == old(buf[lo..hi])[off..hi - 1 - lo]
    {
      ghost var before := buf[lo..hi];
      var k := hi - 1;
      while k > lo + off
        invariant lo + off <= k < hi
        invariant buf[lo..k + 1] == before[..k + 1 - lo]
        invariant buf[k + 1..hi] == before[k - lo..hi - 1 - lo]
      {
        MoveUp(k, before);
        k := k - 1;
      }
    }

    /** The tail moves up one place and the run goes into the gap. */
    method ShiftRight(off: nat, run: OrphanRun)
      requires Valid() && lo + off < hi
      modifies buf
      ensures Valid()
      ensures Contents() == old(Contents())[..off] + [run] + old(Contents())[off..hi - lo - 1]
    {
      ghost var before := Contents();
      ShiftTail(off);
      FillGap(lo + off, run);
      assert before[..off + 1][..off] == before[..off];
    }

    method FillGap(k: nat, run: OrphanRun)
      requires Valid() && lo <= k < hi
      modifies buf
      ensures buf[lo..hi] == old(buf[lo..k + 1])[..k - lo] + [run] + old(buf[k + 1..hi])
    {
      buf[k] := run;
      assert buf[lo..hi] == buf[lo..k] + [run] + buf[k + 1..hi];
    }

    /** One step of that copy. */
    method MoveUp(k: nat, ghost before: seq<OrphanRun>)
      requires Valid() && lo < k < hi && |before| == hi - lo
      requires buf[lo..k + 1] == before[..k + 1 - lo] && buf[k + 1..hi] == before[k - lo..hi - 1 - lo]
      modifies buf
      ensures buf[lo..k] == before[..k - lo] && buf[k..hi] == before[k - 1 - lo..hi - 1 - lo]
    {
      assert buf[k - 1] == buf[lo..k + 1][k - 1 - lo] == before[k - 1 - lo];
      buf[k] := buf[k - 1];
      assert buf[lo..k] == before[..k + 1 - lo][..k - lo];
      assert buf[k..hi] == [buf[k]] + buf[k + 1..hi];
      assert before[k - 1 - lo..hi - 1 - lo] == [before[k - 1 - lo]] + before[k - lo..hi - 1 - lo];
    }
  }
}
