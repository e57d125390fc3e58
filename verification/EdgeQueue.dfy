/** The lock-free ring buffer between the edge interrupt and the main loop
    (firmware/lib/lockout/edge_queue.h): one producer, one consumer, and any interleaving of
    their atomic loads and stores. Acquire/release pairs on `head` and `tail` are taken as
    giving each step the other side's latest stores. */
module EdgeQueue {
  import opened Common

  /** Where the interrupt is inside pushFromIsr. */
  datatype Producer =
    | PIdle
    | PLoadedHead(value: int, head: int)
    | PWriting(value: int, head: int, next: int)    // the plain store to buf[head] has begun
    | PWritten(value: int, head: int, next: int)

  /** Where the main loop is inside pop. */
  datatype Consumer =
    | CIdle
    | CLoadedTail(tail: int)
    | CReading(tail: int)                           // the plain load of buf[tail] has begun
    | CRead(tail: int, value: int)

  /** `accepted`, `popped`, `attempts` and `drops` are history. */
  datatype State = State(n: int, buf: seq<int>, head: int, tail: int, dropped: int,
                         p: Producer, c: Consumer,
                         accepted: seq<int>, popped: seq<int>, attempts: int, drops: int)

  datatype Step =
    | Isr(edge: int, torn: int)  // the next step of the interrupt; `torn` is what a half-done store shows
    | Loop                       // the next step of the main loop

  function Initial(n: int): (s: State)
    requires n >= 1
  {
    State(n, seq(n, _ => 0), 0, 0, 0, PIdle, CIdle, [], [], 0, 0)
  }

  function OnIsr(s: State, edge: int, torn: int): (s': State)
    requires s.n >= 1
  {
    match s.p
    case PIdle => s.(p := PLoadedHead(edge, s.head), attempts := s.attempts + 1)
    case PLoadedHead(v, head) =>
      var next := (head + 1) % s.n;
      if next == s.tail then s.(p := PIdle, dropped := (s.dropped + 1) % U32, drops := s.drops + 1)
      else s.(p := PWriting(v, head, next), buf := Put(s.buf, head, torn))
    case PWriting(v, head, next) => s.(p := PWritten(v, head, next), buf := Put(s.buf, head, v))
    case PWritten(v, head, next) => s.(p := PIdle, head := next, accepted := s.accepted + [v])
  }

  function Put(buf: seq<int>, i: int, v: int): (out: seq<int>) {
    if 0 <= i < |buf| then buf[i := v] else buf
  }

  function OnLoop(s: State): (s': State)
    requires s.n >= 1
  {
    match s.c
    case CIdle => s.(c := CLoadedTail(s.tail))
    case CLoadedTail(tail) => if tail == s.head then s.(c := CIdle) else s.(c := CReading(tail))
    case CReading(tail) => s.(c := if 0 <= tail < |s.buf| then CRead(tail, s.buf[tail]) else CIdle)
    case CRead(tail, v) => s.(c := CIdle, tail := (tail + 1) % s.n, popped := s.popped + [v])
  }

  function Apply(s: State, step: Step): (s': State)
    requires s.n >= 1
    ensures s'.n == s.n
  {
    match step
    case Isr(edge, torn) => OnIsr(s, edge, torn)
    case Loop => OnLoop(s)
  }

  // ---------------------------------------------------------------- counting modulo n

  lemma TimesAtLeast(n: int, d: int)
    requires n >= 1
    ensures d >= 1 ==> n * d >= n
    ensures d <= 0 ==> n * d <= 0
  {
    if d >= 1 { assert n * d == n + n * (d - 1); assert n * (d - 1) >= 0; }
    else { assert n * d == -(n * (-d)); assert n * (-d) >= 0; }
  }

  lemma SameRemainder(n: int, a: int, b: int)
    requires n >= 1 && a % n == b % n
    ensures b - a == n * (b / n - a / n)
  {
    assert a == n * (a / n) + a % n;
    assert b == n * (b / n) + b % n;
    assert n * (b / n - a / n) == n * (b / n) - n * (a / n);
  }

  lemma NearbyDiffer(n: int, a: int, b: int)
    requires n >= 1 && 0 < b - a < n
    ensures a % n != b % n
  {
    if a % n == b % n {
      SameRemainder(n, a, b);
      TimesAtLeast(n, b / n - a / n);
    }
  }

  lemma Unique(n: int, r: int, x: int, q: int)
    requires n >= 1 && x == n * q + r && 0 <= r < n
    ensures x % n == r
  {
    assert x == n * (x / n) + x % n;
    var d := x / n - q;
    assert n * d == n * (x / n) - n * q;
    assert n * d == r - x % n;
    TimesAtLeast(n, d);
    TimesAtLeast(n, -d);
    assert n * (-d) == -(n * d);
  }

  lemma NextIndex(n: int, a: int)
    requires n >= 1 && a >= 0
    ensures (a % n + 1) % n == (a + 1) % n
    ensures (a + n) % n == a % n
    ensures 0 <= a % n < n
  {
    var q, r := a / n, a % n;
    assert a == n * q + r;
    if r + 1 < n {
      Unique(n, r + 1, a + 1, q);
      Unique(n, r + 1, r + 1, 0);
    } else {
      assert a + 1 == n * (q + 1) + 0 by { assert n * (q + 1) == n * q + n; }
      Unique(n, 0, a + 1, q + 1);
      Unique(n, 0, n, 1);
    }
    assert a + n == n * (q + 1) + r by { assert n * (q + 1) == n * q + n; }
    Unique(n, r, a + n, q + 1);
  }

  // ---------------------------------------------------------------- invariant

  /** The ring holds the accepted values that have not been popped, in order, at the positions
      their running number gives them; at most n - 1 of them. */
  ghost predicate Ring(n: int, buf: seq<int>, head: int, tail: int, accepted: seq<int>, popped: seq<int>) {
    && n >= 1 && |buf| == n
    && |popped| <= |accepted| <= |popped| + n - 1
    && head == |accepted| % n && tail == |popped| % n
    && popped == accepted[..|popped|]
    && forall k :: |popped| <= k < |accepted| ==> Holds(n, buf, k, accepted[k])
  }

  ghost predicate Holds(n: int, buf: seq<int>, k: int, v: int)
    requires n >= 1
  {
    0 <= k % n < |buf| && buf[k % n] == v
  }

  ghost predicate ProducerOk(s: State)
    requires s.n >= 1
  {
    match s.p
    case PIdle => true
    case PLoadedHead(_, head) => head == s.head
    case PWriting(_, head, next) => head == s.head && next == (head + 1) % s.n && |s.accepted| + 1 <= |s.popped| + s.n - 1
    case PWritten(v, head, next) =>
      head == s.head && next == (head + 1) % s.n && |s.accepted| + 1 <= |s.popped| + s.n - 1 && Holds(s.n, s.buf, |s.accepted|, v)
  }

  ghost predicate ConsumerOk(s: State) {
    match s.c
    case CIdle => true
    case CLoadedTail(tail) => tail == s.tail
    case CReading(tail) => tail == s.tail && |s.popped| < |s.accepted|
    case CRead(tail, v) => tail == s.tail && |s.popped| < |s.accepted| && v == s.accepted[|s.popped|]
  }

  ghost predicate Counted(s: State) {
    && s.attempts == |s.accepted| + s.drops + (if s.p.PIdle? then 0 else 1)
    && s.dropped == s.drops % U32 && s.drops >= 0
  }

  ghost predicate Inv(s: State) {
    && Ring(s.n, s.buf, s.head, s.tail, s.accepted, s.popped)
    && ProducerOk(s) && ConsumerOk(s) && Counted(s)
  }

  /** The producer's full test and the consumer's empty test say what they are meant to. */
  lemma FullAndEmpty(n: int, buf: seq<int>, head: int, tail: int, accepted: seq<int>, popped: seq<int>)
    requires Ring(n, buf, head, tail, accepted, popped)
    ensures (head + 1) % n == (|accepted| + 1) % n
    ensures (head + 1) % n == tail <==> |accepted| == |popped| + n - 1
    ensures head == tail <==> |accepted| == |popped|
    ensures 0 <= head < n && 0 <= tail < n
  {
    NextIndex(n, |accepted|);
    NextIndex(n, |popped|);
    if |accepted| < |popped| + n - 1 { NearbyDiffer(n, |popped|, |accepted| + 1); }
    if |popped| < |accepted| { NearbyDiffer(n, |popped|, |accepted|); }
  }

  /** Slot `head` holds no value that is still to be popped: writing to it disturbs none. */
  lemma WriteOutside(n: int, buf: seq<int>, head: int, tail: int, accepted: seq<int>, popped: seq<int>, v: int)
    requires Ring(n, buf, head, tail, accepted, popped)
    ensures Ring(n, Put(buf, head, v), head, tail, accepted, popped)
    ensures Holds(n, Put(buf, head, v), |accepted|, v)
  {
    FullAndEmpty(n, buf, head, tail, accepted, popped);
    var buf' := Put(buf, head, v);
    forall k | |popped| <= k < |accepted| ensures Holds(n, buf', k, accepted[k]) {
      assert Holds(n, buf, k, accepted[k]);
      NearbyDiffer(n, k, |accepted|);
    }
  }

  lemma Publish(n: int, buf: seq<int>, head: int, tail: int, accepted: seq<int>, popped: seq<int>, v: int)
    requires Ring(n, buf, head, tail, accepted, popped)
    requires |accepted| + 1 <= |popped| + n - 1 && Holds(n, buf, |accepted|, v)
    ensures Ring(n, buf, (head + 1) % n, tail, accepted + [v], popped)
  {
    NextIndex(n, |accepted|);
    var accepted' := accepted + [v];
    assert accepted'[..|popped|] == accepted[..|popped|];
    forall k | |popped| <= k < |accepted'| ensures Holds(n, buf, k, accepted'[k]) {
      if k < |accepted| { assert Holds(n, buf, k, accepted[k]); }
    }
  }

  lemma Advance(n: int, buf: seq<int>, head: int, tail: int, accepted: seq<int>, popped: seq<int>)
    requires Ring(n, buf, head, tail, accepted, popped) && |popped| < |accepted|
    ensures Ring(n, buf, head, (tail + 1) % n, accepted, popped + [accepted[|popped|]])
    ensures 0 <= tail < |buf| && buf[tail] == accepted[|popped|]
  {
    NextIndex(n, |popped|);
    assert Holds(n, buf, |popped|, accepted[|popped|]);
    assert accepted[..|popped| + 1] == accepted[..|popped|] + [accepted[|popped|]];
  }

  lemma RefusalCounts(s: State)
    requires Inv(s) && s.p.PLoadedHead?
    ensures Inv(s.(p := PIdle, dropped := (s.dropped + 1) % U32, drops := s.drops + 1))
  {
    NextIndex(U32, s.drops);
  }

  lemma CheckKeeps(s: State, torn: int)
    requires Inv(s) && s.p.PLoadedHead?
    ensures Inv(OnIsr(s, 0, torn))
  {
    FullAndEmpty(s.n, s.buf, s.head, s.tail, s.accepted, s.popped);
    RefusalCounts(s);
    WriteOutside(s.n, s.buf, s.head, s.tail, s.accepted, s.popped, torn);
  }

  lemma WriteKeeps(s: State)
    requires Inv(s) && s.p.PWriting?
    ensures Inv(OnIsr(s, 0, 0))
  {
    WriteOutside(s.n, s.buf, s.head, s.tail, s.accepted, s.popped, s.p.value);
  }

  lemma PublishKeeps(s: State)
    requires Inv(s) && s.p.PWritten?
    ensures Inv(OnIsr(s, 0, 0))
  {
    Publish(s.n, s.buf, s.head, s.tail, s.accepted, s.popped, s.p.value);
  }

  lemma IsrKeeps(s: State, edge: int, torn: int)
    requires Inv(s)
    ensures Inv(OnIsr(s, edge, torn))
  {
    match s.p
    case PIdle =>
    case PLoadedHead(_, _) => CheckKeeps(s, torn);
    case PWriting(_, _, _) => WriteKeeps(s);
    case PWritten(_, _, _) => PublishKeeps(s);
  }

  lemma LoopKeeps(s: State)
    requires Inv(s)
    ensures Inv(OnLoop(s))
  {
    FullAndEmpty(s.n, s.buf, s.head, s.tail, s.accepted, s.popped);
    if |s.popped| < |s.accepted| { Advance(s.n, s.buf, s.head, s.tail, s.accepted, s.popped); }
  }

  // ---------------------------------------------------------------- every interleaving

  function Run(s: State, steps: seq<Step>): (s': State)
    requires s.n >= 1
    ensures s'.n == s.n
    decreases |steps|
  {
    if steps == [] then s else Run(Apply(s, steps[0]), steps[1..])
  }

  lemma {:induction false} RunKeeps(s: State, steps: seq<Step>)
    requires Inv(s)
    ensures Inv(Run(s, steps))
    decreases |steps|
  {
    if steps != [] {
      match steps[0] {
        case Isr(edge, torn) => IsrKeeps(s, edge, torn);
        case Loop => LoopKeeps(s);
      }
      RunKeeps(Apply(s, steps[0]), steps[1..]);
    }
  }

  /** The values waiting in the ring, oldest first. */
  function Buffered(s: State): (vs: seq<int>)
    requires s.n >= 1 && |s.buf| == s.n && |s.popped| <= |s.accepted|
  {
    seq(|s.accepted| - |s.popped|, i requires 0 <= i < |s.accepted| - |s.popped| =>
      assert 0 <= (|s.popped| + i) % s.n < s.n by { NextIndex(s.n, |s.popped| + i); }
      s.buf[(|s.popped| + i) % s.n])
  }

  /** For every ring size and every interleaving: what was popped followed by what is buffered is
      what was accepted, in order; the slot being read is never the slot being written; at most
      n - 1 values are held; and every attempt was accepted, dropped or is still under way. */
  lemma Spsc(n: int, steps: seq<Step>)
    requires n >= 1
    ensures var s := Run(Initial(n), steps);
            && |s.buf| == n && |s.popped| <= |s.accepted|
            && s.popped + Buffered(s) == s.accepted
            && |Buffered(s)| <= n - 1
            && !(s.p.PWriting? && s.c.CReading? && s.p.head == s.c.tail)
            && (s.c.CRead? ==> |s.popped| < |s.accepted| && s.c.value == s.accepted[|s.popped|])
            && s.attempts == |s.accepted| + s.drops + (if s.p.PIdle? then 0 else 1)
            && s.dropped == s.drops % U32
  {
    assert Inv(Initial(n));
    RunKeeps(Initial(n), steps);
    var s := Run(Initial(n), steps);
    FullAndEmpty(s.n, s.buf, s.head, s.tail, s.accepted, s.popped);
    var b := Buffered(s);
    forall i | 0 <= i < |b| ensures b[i] == s.accepted[|s.popped| + i] {
      assert Holds(s.n, s.buf, |s.popped| + i, s.accepted[|s.popped| + i]);
    }
    assert s.accepted == s.accepted[..|s.popped|] + s.accepted[|s.popped|..];
    assert b == s.accepted[|s.popped|..];
  }

  /** A push is refused only when n - 1 values are waiting at the moment of its test, and a pop
      comes back empty only when none is. */
  lemma RefusalsAreJustified(s: State, edge: int, torn: int)
    requires Inv(s)
    ensures s.p.PLoadedHead? ==> (OnIsr(s, edge, torn).drops == s.drops + 1 <==> |s.accepted| - |s.popped| == s.n - 1)
    ensures s.c.CLoadedTail? ==> (OnLoop(s).c == CIdle <==> |s.accepted| == |s.popped|)
  {
    FullAndEmpty(s.n, s.buf, s.head, s.tail, s.accepted, s.popped);
  }

  // ---------------------------------------------------------------- from the interrupts

  /** An interrupt's edge, and whether its push is refused. */
  datatype Offer = Offer(edge: int, refused: bool)

  function OffersNext(os: seq<Offer>, s: State, step: Step): (os': seq<Offer>) {
    match step
    case Loop => os
    case Isr(edge, _) =>
      if s.p.PIdle? then os + [Offer(edge, false)]
      else if s.p.PLoadedHead? && |s.accepted| - |s.popped| == s.n - 1 && os != [] then os[..|os| - 1] + [os[|os| - 1].(refused := true)]
      else os
  }

  /** The edges of the interrupts that began a push, in order; refused are those whose test found
      n - 1 values waiting. */
  function Offers(n: int, steps: seq<Step>): (os: seq<Offer>)
    requires n >= 1
    decreases |steps|
  {
    if steps == [] then []
    else var k := |steps| - 1; OffersNext(Offers(n, steps[..k]), Run(Initial(n), steps[..k]), steps[k])
  }

  function Taken(os: seq<Offer>): (vs: seq<int>)
    decreases |os|
  {
    if os == [] then []
    else Taken(os[..|os| - 1]) + if os[|os| - 1].refused then [] else [os[|os| - 1].edge]
  }

  lemma TakenMore(os: seq<Offer>, o: Offer)
    ensures Taken(os + [o]) == Taken(os) + if o.refused then [] else [o.edge]
  {
    assert (os + [o])[..|os|] == os;
  }

  /** The value that a push under way carries. */
  function Carried(p: Producer): (vs: seq<int>) {
    match p
    case PIdle => []
    case PLoadedHead(v, _) => [v]
    case PWriting(v, _, _) => [v]
    case PWritten(v, _, _) => [v]
  }

  ghost predicate OffersMatch(s: State, os: seq<Offer>) {
    && Taken(os) == s.accepted + Carried(s.p) && s.attempts == |os|
    && (!s.p.PIdle? ==> os != [] && !os[|os| - 1].refused && os[|os| - 1].edge == Carried(s.p)[0])
  }

  lemma SameFront(a: seq<int>, b: seq<int>, x: int)
    requires a + [x] == b + [x]
    ensures a == b
  {
    assert a == (a + [x])[..|a|] && b == (b + [x])[..|b|];
    assert |a + [x]| == |b + [x]|;
  }

  lemma TestMatches(s: State, os: seq<Offer>, torn: int)
    requires Inv(s) && s.p.PLoadedHead? && OffersMatch(s, os)
    ensures OffersMatch(OnIsr(s, 0, torn),
                        if |s.accepted| - |s.popped| == s.n - 1 then os[..|os| - 1] + [os[|os| - 1].(refused := true)] else os)
  {
    FullAndEmpty(s.n, s.buf, s.head, s.tail, s.accepted, s.popped);
    var front, last := os[..|os| - 1], os[|os| - 1];
    assert os == front + [last];
    TakenMore(front, last);
    TakenMore(front, last.(refused := true));
    SameFront(Taken(front), s.accepted, last.edge);
    assert s.accepted + [] == s.accepted && Taken(front) + [] == Taken(front);
  }

  lemma IdleMatches(s: State, os: seq<Offer>, edge: int, torn: int)
    requires s.n >= 1 && s.p.PIdle? && OffersMatch(s, os)
    ensures OffersMatch(OnIsr(s, edge, torn), os + [Offer(edge, false)])
  {
    TakenMore(os, Offer(edge, false));
    assert s.accepted + [] == s.accepted;
  }

  lemma StepMatches(s: State, os: seq<Offer>, step: Step)
    requires Inv(s) && OffersMatch(s, os)
    ensures OffersMatch(Apply(s, step), OffersNext(os, s, step))
  {
    match step
    case Loop =>
    case Isr(edge, torn) =>
      if s.p.PIdle? { IdleMatches(s, os, edge, torn); }
      else if s.p.PLoadedHead? { TestMatches(s, os, torn); }
      else { assert s.accepted + [s.p.value] + [] == s.accepted + [s.p.value]; }
  }

  lemma {:induction false} RunOneMore(s: State, steps: seq<Step>, x: Step)
    requires s.n >= 1
    ensures Run(s, steps + [x]) == Apply(Run(s, steps), x)
    decreases |steps|
  {
    if steps == [] {
      assert ([] + [x])[1..] == [];
      assert Run(Apply(s, x), []) == Apply(s, x);
    } else {
      assert (steps + [x])[1..] == steps[1..] + [x];
      RunOneMore(Apply(s, steps[0]), steps[1..], x);
    }
  }

  /** For every ring size and every interleaving: the values accepted are the edges of the interrupts
      whose test found room, in order, each as its interrupt read it; and a push under way carries
      the edge of its own interrupt. */
  lemma {:induction false} AcceptedAreOffers(n: int, steps: seq<Step>)
    requires n >= 1
    ensures OffersMatch(Run(Initial(n), steps), Offers(n, steps))
    decreases |steps|
  {
    if steps != [] {
      var k := |steps| - 1;
      var s := Run(Initial(n), steps[..k]);
      AcceptedAreOffers(n, steps[..k]);
      assert Inv(Initial(n));
      RunKeeps(Initial(n), steps[..k]);
      assert steps == steps[..k] + [steps[k]];
      RunOneMore(Initial(n), steps[..k], steps[k]);
      StepMatches(s, Offers(n, steps[..k]), steps[k]);
    }
  }

  // ---------------------------------------------------------------- the two calls, uninterrupted

  /** A push that is not interleaved with a pop is one step from the old ring to the new one. */
  lemma PushAlone(s: State, edge: int, torn: int)
    requires Inv(s) && s.p.PIdle?
    ensures var looked := OnIsr(OnIsr(s, edge, torn), edge, torn);
            if |s.accepted| - |s.popped| == s.n - 1
            then looked == s.(attempts := s.attempts + 1, dropped := (s.dropped + 1) % U32, drops := s.drops + 1)
            else OnIsr(OnIsr(looked, edge, torn), edge, torn)
                 == s.(attempts := s.attempts + 1, buf := Put(s.buf, s.head, edge), head := (s.head + 1) % s.n, accepted := s.accepted + [edge])
  {
    FullAndEmpty(s.n, s.buf, s.head, s.tail, s.accepted, s.popped);
    assert Put(Put(s.buf, s.head, torn), s.head, edge) == Put(s.buf, s.head, edge);
  }

  /** A pop that is not interleaved with a push takes the oldest value, or finds none. */
  lemma PopAlone(s: State)
    requires Inv(s) && s.c.CIdle?
    ensures if s.popped == s.accepted then OnLoop(OnLoop(s)) == s
            else |s.popped| < |s.accepted|
                 && OnLoop(OnLoop(OnLoop(OnLoop(s)))) == s.(tail := (s.tail + 1) % s.n, popped := s.popped + [s.accepted[|s.popped|]])
  {
    FullAndEmpty(s.n, s.buf, s.head, s.tail, s.accepted, s.popped);
    if |s.popped| < |s.accepted| { Advance(s.n, s.buf, s.head, s.tail, s.accepted, s.popped); }
  }

  class EdgeQueue {
    const buf: array<int>
    var head: int
    var tail: int
    var dropped: int
    ghost var accepted: seq<int>
    ghost var popped: seq<int>

    ghost predicate Valid()
      reads this, buf
    {
      Ring(buf.Length, buf[..], head, tail, accepted, popped) && 0 <= dropped < U32
    }

    constructor (n: int)
      requires n >= 1
      ensures Valid() && fresh(buf) && buf.Length == n && accepted == [] && popped == [] && dropped == 0
    {
      buf := new int[n](_ => 0);
      head, tail, dropped := 0, 0, 0;
      accepted, popped := [], [];
      new;
      assert 0 % n == 0 by { Unique(n, 0, 0, 0); }
    }

    method PushFromIsr(monoUs: int) returns (ok: bool)
      requires Valid()
      modifies this`head, this`dropped, this`accepted, buf
      ensures Valid()
      ensures ok <==> old(|accepted| - |popped|) < buf.Length - 1
      ensures accepted == if ok then old(accepted) + [monoUs] else old(accepted)
      ensures dropped == if ok then old(dropped) else (old(dropped) + 1) % U32
    {
      var h := head;
      var next := (h + 1) % buf.Length;
      FullAndEmpty(buf.Length, buf[..], head, tail, accepted, popped);
      if next == tail {
        dropped := (dropped + 1) % U32;
        return false;
      }
      WriteOutside(buf.Length, buf[..], head, tail, accepted, popped, monoUs);
      ghost var before := buf[..];
      buf[h] := monoUs;
      assert buf[..] == Put(before, h, monoUs);
      Publish(buf.Length, buf[..], head, tail, accepted, popped, monoUs);
      head := next;
      accepted := accepted + [monoUs];
      return true;
    }

    method Pop() returns (edge: Option<int>)
      requires Valid()
      modifies this`tail, this`popped
      ensures Valid()
      ensures edge == None <==> old(popped) == accepted
      ensures edge.Some? ==> |old(popped)| < |accepted| && edge.value == accepted[|old(popped)|]
      ensures popped == if edge.Some? then old(popped) + [edge.value] else old(popped)
    {
      var t := tail;
      FullAndEmpty(buf.Length, buf[..], head, tail, accepted, popped);
      if t == head {
        assert popped == accepted;
        return None;
      }
      Advance(buf.Length, buf[..], head, tail, accepted, popped);
      edge := Some(buf[t]);
      tail := (t + 1) % buf.Length;
      popped := popped + [edge.value];
    }
  }
}
