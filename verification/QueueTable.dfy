/** The queue table (internal/store/queue.go). One table holds every row of every event;
    the waiting rows of an event are kept in order by a real-valued position. */
module QueueTable {
  import opened Common

  datatype Status = Waiting | OnCourse | Done | Canceled

  datatype Row = Row(event: int, driver: int, vehicle: int, position: real,
                     status: Status, tStart: Option<int>, pt: int, mc: bool)

  type Table = map<int, Row>

  const MIN_GAP: real := 0.000000001

  // ---------------------------------------------------------------- ORDER BY

  /** Waiting rows are ordered by position and then id, all others by id. */
  predicate Before(t: Table, st: Status, a: int, b: int)
    requires a in t && b in t
  {
    if st == Waiting && t[a].position != t[b].position then t[a].position < t[b].position else a < b
  }

  function Selected(t: Table, e: int, st: Status): (s: set<int>) {
    set id | id in t && t[id].event == e && t[id].status == st
  }

  /** `ids` is the set `s` written out in the order of `Before`. */
  ghost predicate Sorts(t: Table, st: Status, s: set<int>, ids: seq<int>)
    requires s <= t.Keys
  {
    && (forall id :: id in ids <==> id in s)
    && AllIn(t, ids)
    && (forall i, j :: 0 <= i < j < |ids| ==> Before(t, st, ids[i], ids[j]))
  }

  lemma {:induction false} LeastExists(t: Table, st: Status, s: set<int>)
    requires s <= t.Keys && s != {}
    ensures exists m :: m in s && forall x :: x in s && x != m ==> Before(t, st, m, x)
    decreases |s|
  {
    HasElement(s);
    var a :| a in s;
    if s == {a} {
      assert forall x :: x in s ==> x == a;
    } else {
      assert s - {a} != {};
      LeastExists(t, st, s - {a});
      var m :| m in s - {a} && forall x :: x in s - {a} && x != m ==> Before(t, st, m, x);
      var best := if Before(t, st, a, m) then a else m;
      forall x | x in s && x != best ensures Before(t, st, best, x) {
        if x != a && x != m { assert x in s - {a}; }
      }
    }
  }

  function Least(t: Table, st: Status, s: set<int>): (m: int)
    requires s <= t.Keys && s != {}
    ensures m in s && forall x :: x in s && x != m ==> Before(t, st, m, x)
  {
    LeastExists(t, st, s);
    var m :| m in s && forall x :: x in s && x != m ==> Before(t, st, m, x);
    m
  }

  function SortIds(t: Table, st: Status, s: set<int>): (ids: seq<int>)
    requires s <= t.Keys
    ensures Sorts(t, st, s, ids)
    decreases |s|
  {
    if s == {} then []
    else
      var m := Least(t, st, s);
      [m] + SortIds(t, st, s - {m})
  }

  /** ListQueue(event, status). */
  function ListQueue(t: Table, e: int, st: Status): (ids: seq<int>)
    ensures Sorts(t, st, Selected(t, e, st), ids)
  {
    SortIds(t, st, Selected(t, e, st))
  }

  lemma SortsDistinct(t: Table, st: Status, s: set<int>, ids: seq<int>)
    requires s <= t.Keys && Sorts(t, st, s, ids)
    ensures forall i, j :: 0 <= i < j < |ids| ==> ids[i] != ids[j]
  {
  }

  /** An ORDER BY over (position, id) has one answer: two tables that agree on the set and on
      its positions list it the same way. */
  lemma {:induction false} SortsUnique(t: Table, t': Table, st: Status, s: set<int>, a: seq<int>, b: seq<int>)
    requires s <= t.Keys && s <= t'.Keys
    requires forall id :: id in s ==> t[id].position == t'[id].position
    requires Sorts(t, st, s, a) && Sorts(t', st, s, b)
    ensures a == b
    decreases |a|
  {
    if a == [] {
      if b != [] { HasMember(b); }
    } else {
      var x := a[0];
      assert x in a && x in s && x in b;
      var y := b[0];
      assert y in b && y in s && y in a;
      var i :| 0 <= i < |b| && b[i] == x;
      var j :| 0 <= j < |a| && a[j] == y;
      assert i == 0;
      TailSorts(t, st, s, a);
      TailSorts(t', st, s, b);
      SortsUnique(t, t', st, s - {a[0]}, a[1..], b[1..]);
      assert a == [a[0]] + a[1..] && b == [b[0]] + b[1..];
    }
  }

  lemma TailSorts(t: Table, st: Status, s: set<int>, ids: seq<int>)
    requires s <= t.Keys && Sorts(t, st, s, ids) && ids != []
    ensures Sorts(t, st, s - {ids[0]}, ids[1..])
  {
    SortsDistinct(t, st, s, ids);
    forall id ensures id in ids[1..] <==> id in s - {ids[0]} {
      if id in s - {ids[0]} {
        var k :| 0 <= k < |ids| && ids[k] == id;
        assert ids[1..][k - 1] == id;
      }
    }
  }

  /** The tool every claim about a listing goes through: exhibit the sequence. */
  lemma ListingIs(t: Table, e: int, st: Status, ids: seq<int>)
    requires Sorts(t, st, Selected(t, e, st), ids)
    ensures ListQueue(t, e, st) == ids
  {
    SortsUnique(t, t, st, Selected(t, e, st), ListQueue(t, e, st), ids);
  }

  /** Two tables that select the same rows, with the same positions, list the same. */
  lemma SameListing(t: Table, t': Table, e: int, st: Status)
    requires Selected(t, e, st) == Selected(t', e, st)
    requires forall id :: id in Selected(t, e, st) ==> t[id].position == t'[id].position
    ensures ListQueue(t, e, st) == ListQueue(t', e, st)
  {
    SortsUnique(t, t', st, Selected(t, e, st), ListQueue(t, e, st), ListQueue(t', e, st));
  }

  predicate AllIn(t: Table, ids: seq<int>) {
    forall i :: 0 <= i < |ids| ==> ids[i] in t
  }

  // ---------------------------------------------------------------- statements

  function Waitlist(t: Table, e: int): (ids: seq<int>)
    ensures Sorts(t, Waiting, Selected(t, e, Waiting), ids)
  {
    ListQueue(t, e, Waiting)
  }

  /** MAX(position) + 1 over the event's waiting rows, or 1. */
  function BackPosition(t: Table, e: int): (p: real) {
    var w := Waitlist(t, e);
    if w == [] then 1.0
    else
      assert w[|w| - 1] in w;
      t[w[|w| - 1]].position + 1.0
  }

  predicate AlreadyWaiting(t: Table, e: int, driver: int, vehicle: int) {
    exists id :: id in t && t[id].event == e && t[id].status == Waiting && t[id].driver == driver && t[id].vehicle == vehicle
  }

  function Enqueued(t: Table, id: int, e: int, driver: int, vehicle: int): (t': Table) {
    t[id := Row(e, driver, vehicle, BackPosition(t, e), Waiting, None, 0, false)]
  }

  function WithStatus(t: Table, id: int, st: Status): (t': Table) {
    if id in t then t[id := t[id].(status := st)] else t
  }

  function WithStart(t: Table, id: int, tStart: Option<int>): (t': Table) {
    if id in t then t[id := t[id].(tStart := tStart)] else t
  }

  function WithPosition(t: Table, id: int, p: real): (t': Table) {
    if id in t then t[id := t[id].(position := p)] else t
  }

  function WithPt(t: Table, id: int, pt: int): (t': Table) {
    if id in t then t[id := t[id].(pt := pt)] else t
  }

  function WithMc(t: Table, id: int, mc: bool): (t': Table) {
    if id in t then t[id := t[id].(mc := mc)] else t
  }

  function WaitingCanceled(t: Table, e: int): (t': Table) {
    map id | id in t :: if t[id].event == e && t[id].status == Waiting then t[id].(status := Canceled) else t[id]
  }

  /** Some pair of neighbours in `ids` sits closer than MIN_GAP. */
  predicate Crowded(t: Table, ids: seq<int>)
    requires AllIn(t, ids)
  {
    exists i :: 0 < i < |ids| && t[ids[i]].position - t[ids[i - 1]].position < MIN_GAP
  }

  /** The rows of `ids` moved to 1.0, 2.0, 3.0, ... in that order. */
  function Renumbered(t: Table, ids: seq<int>): (t': Table)
    requires AllIn(t, ids)
    requires forall i, j :: 0 <= i < j < |ids| ==> ids[i] != ids[j]
    ensures t'.Keys == t.Keys
    ensures forall i :: 0 <= i < |ids| ==> t'[ids[i]] == t[ids[i]].(position := (i + 1) as real)
    ensures forall id :: id in t && id !in ids ==> t'[id] == t[id]
  {
    if ids == [] then t
    else
      var n := |ids| - 1;
      assert ids == ids[..n] + [ids[n]];
      Renumbered(t, ids[..n])[ids[n] := t[ids[n]].(position := (n + 1) as real)]
  }

  /** Reorder: move one row, then give the event's waiting rows room again if two are too close. */
  function Reordered(t: Table, id: int, p: real): (t': Table)
    requires id in t
    ensures t'.Keys == t.Keys
  {
    var moved := WithPosition(t, id, p);
    var ids := Waitlist(moved, moved[id].event);
    SortsDistinct(moved, Waiting, Selected(moved, moved[id].event, Waiting), ids);
    if Crowded(moved, ids) then Renumbered(moved, ids) else moved
  }

  /** frontOfWaitingPosition. */
  function FrontPosition(t: Table, e: int): (p: real) {
    var w := Waitlist(t, e);
    if w == [] then 0.0
    else
      assert w[0] in w;
      t[w[0]].position - 1.0
  }

  // ---------------------------------------------------------------- gaps

  /** Any two waiting rows of one event keep their distance. */
  ghost predicate Spaced(t: Table) {
    forall a, b :: a in t && b in t && a != b && t[a].status == Waiting && t[b].status == Waiting && t[a].event == t[b].event ==>
      t[a].position - t[b].position >= MIN_GAP || t[b].position - t[a].position >= MIN_GAP
  }

  ghost predicate SpacedIn(t: Table, e: int) {
    forall a, b :: a in Selected(t, e, Waiting) && b in Selected(t, e, Waiting) && a != b ==>
      t[a].position - t[b].position >= MIN_GAP || t[b].position - t[a].position >= MIN_GAP
  }

  /** Neighbours that keep their distance force every pair to. */
  lemma {:induction false} NeighboursSpaceAll(t: Table, ids: seq<int>, i: nat, j: nat)
    requires AllIn(t, ids)
    requires !Crowded(t, ids) && i < j < |ids|
    ensures t[ids[j]].position - t[ids[i]].position >= MIN_GAP
    decreases j
  {
    assert t[ids[j]].position - t[ids[j - 1]].position >= MIN_GAP;
    if i < j - 1 {
      NeighboursSpaceAll(t, ids, i, j - 1);
    }
  }

  lemma UncrowdedIsSpaced(t: Table, e: int)
    requires !Crowded(t, Waitlist(t, e))
    ensures SpacedIn(t, e)
  {
    var w := Waitlist(t, e);
    forall a, b | a in Selected(t, e, Waiting) && b in Selected(t, e, Waiting) && a != b
      ensures t[a].position - t[b].position >= MIN_GAP || t[b].position - t[a].position >= MIN_GAP
    {
      var i :| 0 <= i < |w| && w[i] == a;
      var j :| 0 <= j < |w| && w[j] == b;
      if i < j { NeighboursSpaceAll(t, w, i, j); } else { NeighboursSpaceAll(t, w, j, i); }
    }
  }

  /** Renumbering changes positions only, and not the order. */
  lemma RenumberKeepsOrder(t: Table, e: int)
    ensures var ids := Waitlist(t, e);
            && (forall i, j :: 0 <= i < j < |ids| ==> ids[i] != ids[j])
            && Waitlist(Renumbered(t, ids), e) == ids
            && !Crowded(Renumbered(t, ids), ids)
  {
    var ids := Waitlist(t, e);
    SortsDistinct(t, Waiting, Selected(t, e, Waiting), ids);
    var t' := Renumbered(t, ids);
    assert Selected(t', e, Waiting) == Selected(t, e, Waiting) by {
      forall id | id in t ensures t'[id].event == t[id].event && t'[id].status == t[id].status {
        if id in ids { var i :| 0 <= i < |ids| && ids[i] == id; }
      }
    }
    ListingIs(t', e, Waiting, ids);
  }
}
