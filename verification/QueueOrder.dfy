/** The position-keyed waiting table refines a plain sequence of ids per event: what each
    statement does to the table is an append, a removal, a move or a prepend on that sequence. */
module QueueOrder {
  import opened QueueTable

  function Removed(ids: seq<int>, id: int): (out: seq<int>) {
    if ids == [] then []
    else if ids[0] == id then Removed(ids[1..], id)
    else [ids[0]] + Removed(ids[1..], id)
  }

  lemma {:induction false} RemovedMembers(ids: seq<int>, id: int)
    ensures forall x :: x in Removed(ids, id) <==> x in ids && x != id
    ensures id !in ids ==> Removed(ids, id) == ids
  {
    if ids != [] {
      RemovedMembers(ids[1..], id);
      assert ids == [ids[0]] + ids[1..];
    }
  }

  ghost predicate Ordered(t: Table, st: Status, ids: seq<int>) {
    && AllIn(t, ids)
    && forall i, j :: 0 <= i < j < |ids| ==> Before(t, st, ids[i], ids[j])
  }

  lemma ConsOrdered(t: Table, st: Status, head: int, rest: seq<int>)
    requires head in t && Ordered(t, st, rest)
    requires forall i :: 0 <= i < |rest| ==> Before(t, st, head, rest[i])
    ensures Ordered(t, st, [head] + rest)
  {
    var out := [head] + rest;
    assert forall i :: 0 < i < |out| ==> out[i] == rest[i - 1];
  }

  lemma {:induction false} RemovedOrdered(t: Table, st: Status, ids: seq<int>, id: int)
    requires Ordered(t, st, ids)
    ensures Ordered(t, st, Removed(ids, id))
  {
    if ids != [] {
      var tail := ids[1..];
      assert forall i :: 0 <= i < |tail| ==> tail[i] == ids[i + 1];
      RemovedOrdered(t, st, tail, id);
      var rest := Removed(tail, id);
      RemovedMembers(tail, id);
      forall i | 0 <= i < |rest| ensures Before(t, st, ids[0], rest[i]) {
        var x := rest[i];
        assert x in rest && x in tail;
        var k :| 0 <= k < |tail| && tail[k] == x;
      }
      ConsOrdered(t, st, ids[0], rest);
    }
  }

  lemma RemovedSorts(t: Table, st: Status, s: set<int>, ids: seq<int>, id: int)
    requires s <= t.Keys && Sorts(t, st, s, ids)
    ensures Sorts(t, st, s - {id}, Removed(ids, id))
  {
    RemovedMembers(ids, id);
    RemovedOrdered(t, st, ids, id);
  }

  lemma RemovedHead(t: Table, e: int)
    requires Waitlist(t, e) != []
    ensures Removed(Waitlist(t, e), Waitlist(t, e)[0]) == Waitlist(t, e)[1..]
  {
    var w := Waitlist(t, e);
    TailSorts(t, Waiting, Selected(t, e, Waiting), w);
    RemovedMembers(w[1..], w[0]);
  }

  // ---------------------------------------------------------------- statements

  /** A row with a new id goes to the back of its event's list and touches no other list. */
  lemma EnqueueAppends(t: Table, id: int, e: int, driver: int, vehicle: int)
    requires id !in t
    ensures var t' := Enqueued(t, id, e, driver, vehicle);
            && Waitlist(t', e) == Waitlist(t, e) + [id]
            && (forall f :: f != e ==> Waitlist(t', f) == Waitlist(t, f))
            && (Spaced(t) ==> Spaced(t'))
  {
    var t' := Enqueued(t, id, e, driver, vehicle);
    var w := Waitlist(t, e);
    assert Selected(t', e, Waiting) == Selected(t, e, Waiting) + {id};
    forall x | x in w ensures t[x].position + 1.0 <= t'[id].position {
      BackIsLast(t, e, x);
    }
    var w' := w + [id];
    forall x ensures x in w' <==> x in Selected(t', e, Waiting) {
      assert x in w' <==> x in w || x == id;
    }
    forall i, j | 0 <= i < j < |w'| ensures Before(t', Waiting, w'[i], w'[j]) {
      var x := w'[i];
      assert x == w[i] && x in w;
    }
    ListingIs(t', e, Waiting, w');
    forall f | f != e ensures Waitlist(t', f) == Waitlist(t, f) {
      assert Selected(t', f, Waiting) == Selected(t, f, Waiting);
      SameListing(t, t', f, Waiting);
    }
    if Spaced(t) {
      forall a, b | a in t' && b in t' && a != b && t'[a].status == Waiting && t'[b].status == Waiting && t'[a].event == t'[b].event
        ensures t'[a].position - t'[b].position >= MIN_GAP || t'[b].position - t'[a].position >= MIN_GAP
      {
        if a == id { assert b in Selected(t, e, Waiting); assert b in w; }
        else if b == id { assert a in Selected(t, e, Waiting); assert a in w; }
      }
    }
  }

  /** The position of a new row: one behind the last waiting one, or 1. */
  lemma EnqueuePosition(t: Table, id: int, e: int, driver: int, vehicle: int)
    requires id !in t
    ensures var p := Enqueued(t, id, e, driver, vehicle)[id].position;
            if Selected(t, e, Waiting) == {} then p == 1.0
            else (forall x :: x in Selected(t, e, Waiting) ==> t[x].position <= p - 1.0)
                 && exists x :: x in Selected(t, e, Waiting) && t[x].position == p - 1.0
  {
    var w := Waitlist(t, e);
    forall x | x in Selected(t, e, Waiting) ensures t[x].position + 1.0 <= BackPosition(t, e) {
      assert x in w;
      BackIsLast(t, e, x);
    }
    if w == [] {
      assert forall x :: x in Selected(t, e, Waiting) ==> x in w;
    } else {
      var last := w[|w| - 1];
      assert last in w;
    }
  }

  lemma BackIsLast(t: Table, e: int, x: int)
    requires x in Waitlist(t, e)
    ensures x in t && t[x].position + 1.0 <= BackPosition(t, e)
  {
    var w := Waitlist(t, e);
    var k :| 0 <= k < |w| && w[k] == x;
    var last := w[|w| - 1];
    if k < |w| - 1 { assert Before(t, Waiting, w[k], w[|w| - 1]); }
  }

  /** A row that stops waiting is removed from its list; the others keep theirs. */
  lemma LeavingRemoves(t: Table, id: int, st: Status, e: int)
    requires id in t && st != Waiting
    ensures var t' := WithStatus(t, id, st);
            && Waitlist(t', e) == Removed(Waitlist(t, e), id)
            && (Spaced(t) ==> Spaced(t'))
  {
    var t' := WithStatus(t, id, st);
    var s := Selected(t, e, Waiting);
    RemovedSorts(t, Waiting, s, Waitlist(t, e), id);
    assert Selected(t', e, Waiting) == s - {id};
    var out := Removed(Waitlist(t, e), id);
    assert Sorts(t', Waiting, s - {id}, out);
    ListingIs(t', e, Waiting, out);
  }

  /** The key (position, id) of row `x` sorts before (p, id). */
  predicate KeyBelow(t: Table, x: int, p: real, id: int)
    requires x in t
  {
    if t[x].position != p then t[x].position < p else x < id
  }

  /** The number of leading rows whose key sorts before (p, id). */
  function Place(t: Table, ids: seq<int>, p: real, id: int): (k: nat)
    requires AllIn(t, ids)
    ensures k <= |ids|
    ensures forall i :: 0 <= i < k ==> KeyBelow(t, ids[i], p, id)
    ensures k < |ids| ==> !KeyBelow(t, ids[k], p, id)
  {
    if ids == [] || !KeyBelow(t, ids[0], p, id) then 0 else 1 + Place(t, ids[1..], p, id)
  }

  function Inserted(ids: seq<int>, k: nat, id: int): (out: seq<int>)
    requires k <= |ids|
  {
    ids[..k] + [id] + ids[k..]
  }

  lemma InsertedOrdered(t: Table, rest: seq<int>, k: nat, id: int)
    requires id in t && Ordered(t, Waiting, rest) && k <= |rest|
    requires forall i :: 0 <= i < k ==> Before(t, Waiting, rest[i], id)
    requires forall i :: k <= i < |rest| ==> Before(t, Waiting, id, rest[i])
    ensures Ordered(t, Waiting, Inserted(rest, k, id))
  {
    var w := Inserted(rest, k, id);
    assert forall i :: 0 <= i < |w| ==> w[i] == if i < k then rest[i] else if i == k then id else rest[i - 1];
  }

  lemma InsertedMembers(rest: seq<int>, k: nat, id: int)
    requires k <= |rest|
    ensures forall x :: x in Inserted(rest, k, id) <==> x in rest || x == id
  {
    forall x ensures x in Inserted(rest, k, id) <==> x in rest || x == id {
      assert rest == rest[..k] + rest[k..];
      assert x in rest <==> x in rest[..k] || x in rest[k..];
    }
  }

  /** Before renumbering is considered, the moved row sits where its new key sorts. */
  lemma MovedSorts(t: Table, id: int, p: real)
    requires id in t && t[id].status == Waiting
    ensures var e := t[id].event; var rest := Removed(Waitlist(t, e), id);
            && AllIn(t, rest)
            && Waitlist(WithPosition(t, id, p), e) == Inserted(rest, Place(t, rest, p, id), id)
  {
    var e := t[id].event;
    var s := Selected(t, e, Waiting);
    var t' := WithPosition(t, id, p);
    RemovedSorts(t, Waiting, s, Waitlist(t, e), id);
    var rest := Removed(Waitlist(t, e), id);
    var k := Place(t, rest, p, id);
    RestAvoids(rest, id);
    assert Selected(t', e, Waiting) == s;
    assert Ordered(t', Waiting, rest);
    forall i | k <= i < |rest| ensures Before(t', Waiting, id, rest[i]) {
      AfterPlace(t, rest, p, id, i);
    }
    InsertedOrdered(t', rest, k, id);
    InsertedMembers(rest, k, id);
    ListingIs(t', e, Waiting, Inserted(rest, k, id));
  }

  lemma RestAvoids(rest: seq<int>, id: int)
    requires id !in rest
    ensures forall i :: 0 <= i < |rest| ==> rest[i] != id
  {
  }

  lemma AfterPlace(t: Table, rest: seq<int>, p: real, id: int, i: nat)
    requires Ordered(t, Waiting, rest) && id !in rest
    requires Place(t, rest, p, id) <= i < |rest|
    ensures !KeyBelow(t, rest[i], p, id) && rest[i] != id
  {
    var k := Place(t, rest, p, id);
    if k < i { assert Before(t, Waiting, rest[k], rest[i]); }
  }

  /** Reorder moves one id to where its new key sorts among the others; the renumbering that may
      follow changes no list, and no list of another event changes either. */
  lemma ReorderMoves(t: Table, id: int, p: real)
    requires id in t && t[id].status == Waiting
    ensures var t' := Reordered(t, id, p); var e := t[id].event; var rest := Removed(Waitlist(t, e), id);
            && AllIn(t, rest)
            && Waitlist(t', e) == Inserted(rest, Place(t, rest, p, id), id)
            && (forall f :: f != e ==> Waitlist(t', f) == Waitlist(t, f))
  {
    var e := t[id].event;
    var moved := WithPosition(t, id, p);
    MovedSorts(t, id, p);
    RenumberKeepsOrder(moved, e);
    ReorderTouches(t, id, p);
    forall f | f != e ensures Waitlist(Reordered(t, id, p), f) == Waitlist(t, f) {
      SameListing(t, Reordered(t, id, p), f, Waiting);
    }
  }

  /** Reorder writes positions only, and only of waiting rows of the row's own event
      (and of the row itself). */
  lemma ReorderTouches(t: Table, id: int, p: real)
    requires id in t
    ensures var t' := Reordered(t, id, p);
            && t'.Keys == t.Keys
            && (forall x :: x in t ==> t'[x] == t[x].(position := t'[x].position))
            && (forall x :: x in t && x != id && (t[x].event != t[id].event || t[x].status != Waiting) ==> t'[x] == t[x])
            && (forall f, st :: Selected(t', f, st) == Selected(t, f, st))
  {
    var moved := WithPosition(t, id, p);
    var e := t[id].event;
    var w := Waitlist(moved, e);
    SortsDistinct(moved, Waiting, Selected(moved, e, Waiting), w);
    var t' := Reordered(t, id, p);
    forall x | x in t
      ensures t'[x] == t[x].(position := t'[x].position)
      ensures x != id && (t[x].event != e || t[x].status != Waiting) ==> t'[x] == t[x]
    {
      if x in w {
        assert x in Selected(moved, e, Waiting);
        var i :| 0 <= i < |w| && w[i] == x;
      }
    }
  }

  /** Reorder leaves every event spaced, even if the moved row's own event was not. */
  lemma ReorderSpaces(t: Table, id: int, p: real)
    requires id in t
    requires forall f :: f != t[id].event ==> SpacedIn(t, f)
    ensures Spaced(Reordered(t, id, p))
  {
    var e := t[id].event;
    var moved := WithPosition(t, id, p);
    var t' := Reordered(t, id, p);
    ReorderTouches(t, id, p);
    RenumberKeepsOrder(moved, e);
    var w := Waitlist(moved, e);
    if !Crowded(moved, w) {
      assert t' == moved;
    }
    UncrowdedIsSpaced(t', e);
    forall f | f != e ensures SpacedIn(t', f) {
      OthersStaySpaced(t, id, p, f);
    }
    SpacedFromEvents(t');
  }

  ghost predicate TooTight(t: Table, e: int) {
    exists a, b :: a in Selected(t, e, Waiting) && b in Selected(t, e, Waiting) && a != b
                   && -MIN_GAP < t[a].position - t[b].position < MIN_GAP
  }

  lemma CrowdedIsTight(t: Table, e: int)
    ensures Crowded(t, Waitlist(t, e)) <==> TooTight(t, e)
  {
    var w := Waitlist(t, e);
    SortsDistinct(t, Waiting, Selected(t, e, Waiting), w);
    if Crowded(t, w) {
      var i :| 0 < i < |w| && t[w[i]].position - t[w[i - 1]].position < MIN_GAP;
      var a, b := w[i], w[i - 1];
      assert a in w && b in w && Before(t, Waiting, w[i - 1], w[i]);
    } else {
      UncrowdedIsSpaced(t, e);
    }
  }

  /** The positions after a reorder: the row gets the one asked for and the others keep theirs, unless
      two waiting rows of the event would then be closer than 1e-9; then they are 1, 2, 3, ... in
      the order of the list. */
  lemma ReorderPositions(t: Table, id: int, p: real)
    requires id in t && t[id].status == Waiting
    ensures var t' := Reordered(t, id, p); var e := t[id].event;
            if !TooTight(t[id := t[id].(position := p)], e) then t' == t[id := t[id].(position := p)]
            else forall i :: 0 <= i < |Waitlist(t', e)| ==> Waitlist(t', e)[i] in t' && t'[Waitlist(t', e)[i]].position == (i + 1) as real
  {
    var e := t[id].event;
    var moved := WithPosition(t, id, p);
    var ids := Waitlist(moved, e);
    CrowdedIsTight(moved, e);
    RenumberKeepsOrder(moved, e);
    SortsDistinct(moved, Waiting, Selected(moved, e, Waiting), ids);
  }

  lemma OthersStaySpaced(t: Table, id: int, p: real, f: int)
    requires id in t && f != t[id].event && SpacedIn(t, f)
    ensures SpacedIn(Reordered(t, id, p), f)
  {
    ReorderTouches(t, id, p);
    assert Selected(Reordered(t, id, p), f, Waiting) == Selected(t, f, Waiting);
  }

  lemma SpacedFromEvents(t: Table)
    requires forall f :: SpacedIn(t, f)
    ensures Spaced(t)
  {
    forall a, b | a in t && b in t && a != b && t[a].status == Waiting && t[b].status == Waiting && t[a].event == t[b].event
      ensures t[a].position - t[b].position >= MIN_GAP || t[b].position - t[a].position >= MIN_GAP
    {
      assert SpacedIn(t, t[a].event);
      assert a in Selected(t, t[a].event, Waiting) && b in Selected(t, t[a].event, Waiting);
    }
  }

  lemma SpacedEverywhere(t: Table, f: int)
    requires Spaced(t)
    ensures SpacedIn(t, f)
  {
  }

  // ---------------------------------------------------------------- back to the queue

  /** undoStart's way back to the queue: status, then frontOfWaitingPosition, then Reorder. */
  function Returned(t: Table, id: int): (t': Table)
    requires id in t
    ensures t'.Keys == t.Keys
  {
    var waiting := WithStatus(t, id, Waiting);
    Reordered(waiting, id, FrontPosition(waiting, t[id].event))
  }

  lemma JoiningAdds(t: Table, id: int)
    requires id in t && t[id].status != Waiting
    ensures var t' := WithStatus(t, id, Waiting);
            && Removed(Waitlist(t', t[id].event), id) == Waitlist(t, t[id].event)
            && id in Waitlist(t', t[id].event)
  {
    var e := t[id].event;
    var t' := WithStatus(t, id, Waiting);
    var s := Selected(t', e, Waiting);
    assert id in s;
    RemovedSorts(t', Waiting, s, Waitlist(t', e), id);
    assert s - {id} == Selected(t, e, Waiting);
    SortsUnique(t, t', Waiting, s - {id}, Waitlist(t, e), Removed(Waitlist(t', e), id));
  }

  /** A row that starts to wait in one event leaves the lists of the others alone. */
  lemma OthersUntouched(t: Table, id: int, f: int)
    requires id in t && f != t[id].event
    ensures var w1 := WithStatus(t, id, Waiting); Waitlist(w1, f) == Waitlist(t, f) && (Spaced(t) ==> SpacedIn(w1, f))
  {
    var w1 := WithStatus(t, id, Waiting);
    assert Selected(w1, f, Waiting) == Selected(t, f, Waiting);
    SameListing(t, w1, f, Waiting);
  }

  /** A row that comes back to the queue is put in front of everyone, whatever stale position it
      still carries: the row itself is already part of the list whose head is looked up, so the
      "or 0 if the queue is empty" answer is never the one used. */
  lemma ReturnPrepends(t: Table, id: int)
    requires id in t && t[id].status != Waiting
    ensures var e := t[id].event; var t' := Returned(t, id);
            && Waitlist(t', e) == [id] + Waitlist(t, e)
            && (forall f :: f != e ==> Waitlist(t', f) == Waitlist(t, f))
            && (Spaced(t) ==> Spaced(t'))
            && Waitlist(WithStatus(t, id, Waiting), e) != []
  {
    var e := t[id].event;
    var w1 := WithStatus(t, id, Waiting);
    var p := FrontPosition(w1, e);
    JoiningAdds(t, id);
    ReorderMoves(w1, id, p);
    var rest := Waitlist(t, e);
    assert AllIn(w1, rest);
    if rest != [] {
      HeadBelow(w1, e, rest[0]) by { RemovedMembers(Waitlist(w1, e), id); var x := rest[0]; assert x in rest; }
      assert !KeyBelow(w1, rest[0], p, id);
      assert Place(w1, rest, p, id) == 0;
    }
    assert Inserted(rest, 0, id) == [id] + rest;
    forall f | f != e ensures Waitlist(w1, f) == Waitlist(t, f) && (Spaced(t) ==> SpacedIn(w1, f)) { OthersUntouched(t, id, f); }
    if Spaced(t) {
      ReorderSpaces(w1, id, p);
    }
  }

  lemma HeadBelow(t: Table, e: int, x: int)
    requires x in Waitlist(t, e)
    ensures x in t && FrontPosition(t, e) + 1.0 <= t[x].position
  {
    var w := Waitlist(t, e);
    var k :| 0 <= k < |w| && w[k] == x;
    var h := w[0];
    assert h in w;
    if k > 0 { assert Before(t, Waiting, w[0], w[k]); }
  }
}
