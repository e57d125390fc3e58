/** The per-key token bucket (internal/web/ratelimit.go), over real time and real tokens. */
module RateLimiter {
  datatype Bucket = Bucket(tokens: real, lastTime: real)

  datatype Config = Config(capacity: real, refillPerSec: real)

  datatype Request = Request(key: string, now: real)

  type Buckets = map<string, Bucket>

  datatype Answer = Answer(buckets: Buckets, allowed: bool)

  /** The tokens that flow in from t to u. */
  function Inflow(cfg: Config, t: real, u: real): (tokens: real) {
    (u - t) * cfg.refillPerSec
  }

  function Refilled(cfg: Config, b: Bucket, now: real): (tokens: real) {
    var t := b.tokens + Inflow(cfg, b.lastTime, now);
    if t > cfg.capacity then cfg.capacity else t
  }

  function Answered(cfg: Config, bs: Buckets, r: Request): (a: Answer) {
    if r.key !in bs then Answer(bs[r.key := Bucket(cfg.capacity - 1.0, r.now)], true)
    else
      var t := Refilled(cfg, bs[r.key], r.now);
      if t < 1.0 then Answer(bs[r.key := Bucket(t, r.now)], false)
      else Answer(bs[r.key := Bucket(t - 1.0, r.now)], true)
  }

  /** The answers to a history of requests. */
  function Answers(cfg: Config, bs: Buckets, rs: seq<Request>): (as_: seq<bool>)
    ensures |as_| == |rs|
    decreases |rs|
  {
    if rs == [] then [] else [Answered(cfg, bs, rs[0]).allowed] + Answers(cfg, Answered(cfg, bs, rs[0]).buckets, rs[1..])
  }

  function After(cfg: Config, bs: Buckets, rs: seq<Request>): (bs': Buckets)
    decreases |rs|
  {
    if rs == [] then bs else After(cfg, Answered(cfg, bs, rs[0]).buckets, rs[1..])
  }

  /** How many requests of this key were allowed. */
  function Allowed(key: string, rs: seq<Request>, as_: seq<bool>): (n: int)
    requires |as_| == |rs|
    decreases |rs|
  {
    if rs == [] then 0 else (if rs[0].key == key && as_[0] then 1 else 0) + Allowed(key, rs[1..], as_[1..])
  }

  predicate Monotone(rs: seq<Request>) {
    forall i, j :: 0 <= i < j < |rs| ==> rs[i].now <= rs[j].now
  }

  /** No bucket was written after time t. */
  predicate WrittenBy(bs: Buckets, t: real) {
    forall k :: k in bs ==> bs[k].lastTime <= t
  }

  /** What the key could spend at time t. */
  function Level(cfg: Config, bs: Buckets, key: string, t: real): (l: real) {
    if key in bs then Refilled(cfg, bs[key], t) else cfg.capacity
  }

  predicate Sound(cfg: Config, bs: Buckets) {
    cfg.capacity >= 1.0 && cfg.refillPerSec >= 0.0 && forall k :: k in bs ==> 0.0 <= bs[k].tokens <= cfg.capacity
  }

  lemma Distributes(a: real, b: real, c: real, rate: real)
    requires c == a + b
    ensures c * rate == a * rate + b * rate
  {
  }

  lemma InflowSplits(cfg: Config, t: real, u: real, v: real)
    ensures Inflow(cfg, t, v) == Inflow(cfg, t, u) + Inflow(cfg, u, v)
  {
    Distributes(u - t, v - u, v - t, cfg.refillPerSec);
  }

  lemma NoInflow(cfg: Config, t: real)
    ensures Inflow(cfg, t, t) == 0.0
  {
    InflowSplits(cfg, t, t, t);
  }

  lemma InflowNotNegative(cfg: Config, t: real, u: real)
    requires cfg.refillPerSec >= 0.0 && t <= u
    ensures Inflow(cfg, t, u) >= 0.0
  {
    var d := u - t;
    assert d >= 0.0;
  }

  lemma RefilledNow(cfg: Config, b: Bucket)
    ensures Refilled(cfg, b, b.lastTime) == if b.tokens > cfg.capacity then cfg.capacity else b.tokens
  {
    NoInflow(cfg, b.lastTime);
  }

  lemma RefillGrows(cfg: Config, b: Bucket, t: real, u: real)
    requires cfg.refillPerSec >= 0.0 && 0.0 <= b.tokens <= cfg.capacity && b.lastTime <= t <= u
    ensures 0.0 <= Refilled(cfg, b, t) <= Refilled(cfg, b, u) <= cfg.capacity
    ensures Refilled(cfg, b, u) <= Refilled(cfg, b, t) + Inflow(cfg, t, u)
  {
    InflowNotNegative(cfg, b.lastTime, t);
    InflowNotNegative(cfg, t, u);
    InflowSplits(cfg, b.lastTime, t, u);
  }

  /** A request costs its key one token if it is allowed and nothing otherwise, is allowed exactly
      when there is one to spend, and costs no other key anything. */
  lemma RequestCosts(cfg: Config, bs: Buckets, r: Request, key: string)
    requires Sound(cfg, bs) && WrittenBy(bs, r.now)
    ensures var a := Answered(cfg, bs, r);
            && Sound(cfg, a.buckets) && WrittenBy(a.buckets, r.now)
            && (a.allowed <==> Level(cfg, bs, r.key, r.now) >= 1.0)
            && Level(cfg, a.buckets, key, r.now) == Level(cfg, bs, key, r.now) - (if key == r.key && a.allowed then 1.0 else 0.0)
  {
    var a := Answered(cfg, bs, r);
    if r.key in bs { RefillGrows(cfg, bs[r.key], r.now, r.now); }
    RefilledNow(cfg, a.buckets[r.key]);
    assert key != r.key ==> (key in a.buckets <==> key in bs);
  }

  lemma LevelGrows(cfg: Config, bs: Buckets, key: string, t: real, u: real)
    requires Sound(cfg, bs) && WrittenBy(bs, t) && t <= u
    ensures 0.0 <= Level(cfg, bs, key, t) <= cfg.capacity
    ensures Level(cfg, bs, key, u) <= Level(cfg, bs, key, t) + Inflow(cfg, t, u)
    ensures Level(cfg, bs, key, u) >= Level(cfg, bs, key, t)
  {
    InflowNotNegative(cfg, t, u);
    if key in bs { RefillGrows(cfg, bs[key], t, u); }
  }

  /** Between requests a key's level rises with the rate, up to the capacity and no further; a key
      never seen has all of it. */
  lemma LevelRises(cfg: Config, bs: Buckets, key: string, t: real, u: real)
    requires Sound(cfg, bs) && WrittenBy(bs, t) && t <= u
    ensures var full := Level(cfg, bs, key, t) + (u - t) * cfg.refillPerSec;
            Level(cfg, bs, key, u) == if full > cfg.capacity then cfg.capacity else full
    ensures key !in bs ==> Level(cfg, bs, key, t) == cfg.capacity
  {
    InflowNotNegative(cfg, t, u);
    if key in bs {
      InflowNotNegative(cfg, bs[key].lastTime, t);
      InflowSplits(cfg, bs[key].lastTime, t, u);
    }
  }

  /** How many requests of this key the limiter allows, started from these buckets. */
  function Spent(cfg: Config, bs: Buckets, rs: seq<Request>, key: string): (n: real)
    decreases |rs|
  {
    if rs == [] then 0.0
    else (if rs[0].key == key && Answered(cfg, bs, rs[0]).allowed then 1.0 else 0.0)
         + Spent(cfg, Answered(cfg, bs, rs[0]).buckets, rs[1..], key)
  }

  lemma {:induction false} SpentIsAllowed(cfg: Config, bs: Buckets, rs: seq<Request>, key: string)
    ensures Spent(cfg, bs, rs, key) == Allowed(key, rs, Answers(cfg, bs, rs)) as real
    decreases |rs|
  {
    if rs != [] {
      var rest := Answered(cfg, bs, rs[0]).buckets;
      assert Answers(cfg, bs, rs)[1..] == Answers(cfg, rest, rs[1..]);
      SpentIsAllowed(cfg, rest, rs[1..], key);
    }
  }

  function End(rs: seq<Request>, t: real): (end: real) {
    if rs == [] then t else rs[|rs| - 1].now
  }

  lemma EndAfterStart(rs: seq<Request>, t: real)
    requires Monotone(rs) && (rs != [] ==> t <= rs[0].now)
    ensures t <= End(rs, t)
    ensures rs != [] ==> Monotone(rs[1..]) && End(rs[1..], rs[0].now) == End(rs, t) && rs[0].now <= End(rs, t)
    ensures |rs| > 1 ==> rs[0].now <= rs[1..][0].now
  {
    if rs != [] { assert forall i :: 0 <= i < |rs[1..]| ==> rs[1..][i] == rs[i + 1]; }
  }

  lemma {:induction false} StaysSound(cfg: Config, bs: Buckets, rs: seq<Request>, t: real)
    requires Sound(cfg, bs) && WrittenBy(bs, t) && Monotone(rs) && (rs != [] ==> t <= rs[0].now)
    ensures Sound(cfg, After(cfg, bs, rs)) && WrittenBy(After(cfg, bs, rs), End(rs, t))
    decreases |rs|
  {
    EndAfterStart(rs, t);
    if rs != [] {
      assert WrittenBy(bs, rs[0].now);
      RequestCosts(cfg, bs, rs[0], rs[0].key);
      StaysSound(cfg, Answered(cfg, bs, rs[0]).buckets, rs[1..], rs[0].now);
    }
  }

  /** One request, seen from a key: what it costs plus what is left is at most what was there at
      the earlier time t plus what flowed in since. */
  lemma RequestSpends(cfg: Config, bs: Buckets, r: Request, key: string, t: real)
    requires Sound(cfg, bs) && WrittenBy(bs, t) && t <= r.now
    ensures var a := Answered(cfg, bs, r);
            && Sound(cfg, a.buckets) && WrittenBy(a.buckets, r.now)
            && (if r.key == key && a.allowed then 1.0 else 0.0) + Level(cfg, a.buckets, key, r.now)
               <= Level(cfg, bs, key, t) + Inflow(cfg, t, r.now)
  {
    LevelGrows(cfg, bs, key, t, r.now);
    assert WrittenBy(bs, r.now);
    RequestCosts(cfg, bs, r, key);
  }

  lemma Chains(cfg: Config, bs: Buckets, rs: seq<Request>, key: string, t: real, end: real, first: real, second: real)
    requires rs != []
    requires var a := Answered(cfg, bs, rs[0]);
             && (if rs[0].key == key && a.allowed then 1.0 else 0.0) + Level(cfg, a.buckets, key, rs[0].now)
                <= Level(cfg, bs, key, t) + first
             && Spent(cfg, a.buckets, rs[1..], key) + Level(cfg, After(cfg, a.buckets, rs[1..]), key, end)
                <= Level(cfg, a.buckets, key, rs[0].now) + second
    ensures Spent(cfg, bs, rs, key) + Level(cfg, After(cfg, bs, rs), key, end) <= Level(cfg, bs, key, t) + first + second
  {
  }

  /** Tokens are conserved: what a key was allowed plus what it has left is at most what it had
      plus what flowed in. */
  lemma {:induction false} SpendingBound(cfg: Config, bs: Buckets, rs: seq<Request>, key: string, t: real)
    requires Sound(cfg, bs) && WrittenBy(bs, t) && Monotone(rs) && (rs != [] ==> t <= rs[0].now)
    ensures Spent(cfg, bs, rs, key) + Level(cfg, After(cfg, bs, rs), key, End(rs, t))
               <= Level(cfg, bs, key, t) + Inflow(cfg, t, End(rs, t))
    decreases |rs|
  {
    if rs == [] {
      NoInflow(cfg, t);
    } else {
      EndAfterStart(rs, t);
      RequestSpends(cfg, bs, rs[0], key, t);
      SpendingBound(cfg, Answered(cfg, bs, rs[0]).buckets, rs[1..], key, rs[0].now);
      InflowSplits(cfg, t, rs[0].now, End(rs, t));
      Chains(cfg, bs, rs, key, t, End(rs, t), Inflow(cfg, t, rs[0].now), Inflow(cfg, rs[0].now, End(rs, t)));
    }
  }

  lemma {:induction false} SplitHistory(cfg: Config, bs: Buckets, xs: seq<Request>, ys: seq<Request>)
    ensures Answers(cfg, bs, xs + ys) == Answers(cfg, bs, xs) + Answers(cfg, After(cfg, bs, xs), ys)
    decreases |xs|
  {
    if xs == [] {
      assert xs + ys == ys;
    } else {
      assert (xs + ys)[1..] == xs[1..] + ys;
      SplitHistory(cfg, Answered(cfg, bs, xs[0]).buckets, xs[1..], ys);
    }
  }

  lemma SplitsInOrder(before: seq<Request>, window: seq<Request>)
    requires window != [] && Monotone(before + window)
    ensures Monotone(before) && Monotone(window)
    ensures (before + window)[0].now <= window[0].now
    ensures before != [] ==> (before + window)[0] == before[0] && before[|before| - 1].now <= window[0].now
  {
    var all := before + window;
    assert forall i :: 0 <= i < |before| ==> all[i] == before[i];
    assert forall i :: 0 <= i < |window| ==> all[|before| + i] == window[i];
    forall i, j | 0 <= i < j < |window| ensures window[i].now <= window[j].now {
      assert all[|before| + i].now <= all[|before| + j].now;
    }
    if before != [] { assert all[|before| - 1].now <= all[|before|].now; }
    assert all[|before|] == window[0];
  }

  /** A key with a full bucket at most: what it is allowed within a stretch is at most the
      capacity plus the inflow. */
  lemma SpentWithin(cfg: Config, bs: Buckets, rs: seq<Request>, key: string, t: real)
    requires Sound(cfg, bs) && WrittenBy(bs, t) && Monotone(rs) && (rs != [] ==> t <= rs[0].now)
    ensures Spent(cfg, bs, rs, key) <= cfg.capacity + Inflow(cfg, t, End(rs, t))
  {
    SpendingBound(cfg, bs, rs, key, t);
    StaysSound(cfg, bs, rs, t);
    LevelGrows(cfg, bs, key, t, t);
    LevelGrows(cfg, After(cfg, bs, rs), key, End(rs, t), End(rs, t));
  }

  lemma BoundByInflow(cfg: Config, before: seq<Request>, window: seq<Request>, key: string)
    requires cfg.capacity >= 1.0 && cfg.refillPerSec >= 0.0
    requires window != [] && Monotone(before + window)
    ensures var as_ := Answers(cfg, map[], before + window);
            (Allowed(key, window, as_[|before|..]) as real)
              <= cfg.capacity + Inflow(cfg, window[0].now, window[|window| - 1].now)
  {
    SplitHistory(cfg, map[], before, window);
    var t0, t1 := (before + window)[0].now, window[0].now;
    SplitsInOrder(before, window);
    StaysSound(cfg, map[], before, t0);
    var bs := After(cfg, map[], before);
    assert WrittenBy(bs, t1);
    SpentWithin(cfg, bs, window, key, t1);
    SpentIsAllowed(cfg, bs, window, key);
    assert Answers(cfg, map[], before + window)[|before|..] == Answers(cfg, bs, window);
  }

  /** In every history with a non-decreasing clock, a key is allowed at most capacity + rate * T
      requests within any stretch of it that takes time T. */
  lemma RateBound(cfg: Config, before: seq<Request>, window: seq<Request>, key: string, took: real)
    requires cfg.capacity >= 1.0 && cfg.refillPerSec >= 0.0
    requires window != [] && Monotone(before + window) && took == window[|window| - 1].now - window[0].now
    ensures (Allowed(key, window, Answers(cfg, map[], before + window)[|before|..]) as real) <= cfg.capacity + cfg.refillPerSec * took
  {
    BoundByInflow(cfg, before, window, key);
  }

  /** Below one token of capacity the bound fails at the very first request, which is always allowed. */
  lemma RateBoundNeedsOneToken(cfg: Config, key: string, now: real)
    requires cfg.capacity < 1.0
    ensures Answers(cfg, map[], [Request(key, now)]) == [true]
    ensures (Allowed(key, [Request(key, now)], [true]) as real) > cfg.capacity + Inflow(cfg, now, now)
  {
    assert [Request(key, now)][1..] == [];
  }

  /** Each request of the key comes with a whole token flowed in since its bucket was last written. */
  ghost predicate Paced(cfg: Config, bs: Buckets, rs: seq<Request>, key: string)
    decreases |rs|
  {
    rs == [] ||
    ((rs[0].key == key && key in bs ==> Inflow(cfg, bs[key].lastTime, rs[0].now) >= 1.0) &&
     Paced(cfg, Answered(cfg, bs, rs[0]).buckets, rs[1..], key))
  }

  lemma PacedIsAllowed(cfg: Config, bs: Buckets, r: Request)
    requires Sound(cfg, bs)
    ensures r.key in bs && Inflow(cfg, bs[r.key].lastTime, r.now) >= 1.0 ==> Answered(cfg, bs, r).allowed
    ensures r.key !in bs ==> Answered(cfg, bs, r).allowed
  {
    if r.key in bs {
      var b := bs[r.key];
      var flow := Inflow(cfg, b.lastTime, r.now);
      assert b.tokens >= 0.0;
      assert flow >= 1.0 ==> b.tokens + flow >= 1.0;
      assert Refilled(cfg, b, r.now) == if b.tokens + flow > cfg.capacity then cfg.capacity else b.tokens + flow;
    }
  }

  lemma {:induction false} PacedIsAlwaysAllowed(cfg: Config, bs: Buckets, rs: seq<Request>, key: string, t: real)
    requires Sound(cfg, bs) && WrittenBy(bs, t) && Monotone(rs) && (rs != [] ==> t <= rs[0].now)
    requires Paced(cfg, bs, rs, key)
    ensures forall i :: 0 <= i < |rs| && rs[i].key == key ==> Answers(cfg, bs, rs)[i]
    decreases |rs|
  {
    EndAfterStart(rs, t);
    if rs != [] {
      var a := Answered(cfg, bs, rs[0]);
      assert WrittenBy(bs, rs[0].now);
      RequestCosts(cfg, bs, rs[0], key);
      PacedIsAlwaysAllowed(cfg, a.buckets, rs[1..], key, rs[0].now);
      PacedIsAllowed(cfg, bs, rs[0]);
      forall i | 0 <= i < |rs| && rs[i].key == key ensures Answers(cfg, bs, rs)[i] {
        if i > 0 { assert rs[1..][i - 1].key == key; }
      }
    }
  }

  /** Request i is the key's first in the history. */
  ghost predicate IsFirst(rs: seq<Request>, key: string, i: int) {
    0 <= i < |rs| && rs[i].key == key && forall m :: 0 <= m < i ==> rs[m].key != key
  }

  /** Requests i and j are of the key, with none of it between them. */
  ghost predicate Consecutive(rs: seq<Request>, key: string, i: int, j: int) {
    0 <= i < j < |rs| && rs[i].key == key && rs[j].key == key && forall m :: i < m < j ==> rs[m].key != key
  }

  /** Each request of the key comes at least 1/rate after the one before it. */
  ghost predicate SpacedOut(cfg: Config, rs: seq<Request>, key: string) {
    forall i, j :: Consecutive(rs, key, i, j) ==> LongEnough(cfg, rs[j].now - rs[i].now)
  }

  /** At least 1/rate. */
  predicate LongEnough(cfg: Config, gap: real) {
    gap * cfg.refillPerSec >= 1.0
  }

  lemma LongEnoughFlows(cfg: Config, t: real, u: real)
    requires LongEnough(cfg, u - t)
    ensures Inflow(cfg, t, u) >= 1.0
  {
  }

  /** The same, as what flows in. */
  ghost predicate Flows(cfg: Config, rs: seq<Request>, key: string) {
    forall i, j :: Consecutive(rs, key, i, j) ==> Inflow(cfg, rs[i].now, rs[j].now) >= 1.0
  }

  lemma SpacedOutFlows(cfg: Config, rs: seq<Request>, key: string)
    requires SpacedOut(cfg, rs, key)
    ensures Flows(cfg, rs, key)
  {
    forall i, j | Consecutive(rs, key, i, j) ensures Inflow(cfg, rs[i].now, rs[j].now) >= 1.0 {
      LongEnoughFlows(cfg, rs[i].now, rs[j].now);
    }
  }

  lemma FlowsOn(cfg: Config, rs: seq<Request>, key: string)
    requires rs != [] && Flows(cfg, rs, key)
    ensures Flows(cfg, rs[1..], key)
  {
    var rest := rs[1..];
    assert forall m :: 0 <= m < |rest| ==> rest[m] == rs[m + 1];
    forall i, j | Consecutive(rest, key, i, j) ensures Inflow(cfg, rest[i].now, rest[j].now) >= 1.0 {
      assert Consecutive(rs, key, i + 1, j + 1);
    }
  }

  /** The key's next request finds a token flowed in since t. */
  ghost predicate FirstFlows(cfg: Config, rs: seq<Request>, key: string, t: real) {
    forall i :: IsFirst(rs, key, i) ==> Inflow(cfg, t, rs[i].now) >= 1.0
  }

  lemma FirstFlowsOn(cfg: Config, rs: seq<Request>, key: string, t: real)
    requires rs != [] && Flows(cfg, rs, key)
    ensures rs[0].key == key ==> FirstFlows(cfg, rs[1..], key, rs[0].now)
    ensures rs[0].key != key && FirstFlows(cfg, rs, key, t) ==> FirstFlows(cfg, rs[1..], key, t)
  {
    var rest := rs[1..];
    assert forall m :: 0 <= m < |rest| ==> rest[m] == rs[m + 1];
    forall i | IsFirst(rest, key, i)
      ensures rs[0].key == key ==> Inflow(cfg, rs[0].now, rest[i].now) >= 1.0
      ensures rs[0].key != key && FirstFlows(cfg, rs, key, t) ==> Inflow(cfg, t, rest[i].now) >= 1.0
    {
      if rs[0].key == key { assert Consecutive(rs, key, 0, i + 1); } else { assert IsFirst(rs, key, i + 1); }
    }
  }

  lemma {:induction false} FlowsIsPaced(cfg: Config, bs: Buckets, rs: seq<Request>, key: string)
    requires Flows(cfg, rs, key)
    requires key in bs ==> FirstFlows(cfg, rs, key, bs[key].lastTime)
    ensures Paced(cfg, bs, rs, key)
    decreases |rs|
  {
    if rs != [] {
      var bs' := Answered(cfg, bs, rs[0]).buckets;
      FlowsOn(cfg, rs, key);
      FirstFlowsOn(cfg, rs, key, if key in bs then bs[key].lastTime else 0.0);
      assert rs[0].key == key ==> IsFirst(rs, key, 0);
      assert key in bs' ==> bs'[key].lastTime == if rs[0].key == key then rs[0].now else bs[key].lastTime;
      FlowsIsPaced(cfg, bs', rs[1..], key);
    }
  }

  /** A client whose consecutive requests are at least 1/rate apart is never refused, whatever the
      other clients do in between. */
  lemma PacedIsNeverRefused(cfg: Config, rs: seq<Request>, key: string)
    requires cfg.capacity >= 1.0 && cfg.refillPerSec >= 0.0
    requires Monotone(rs) && SpacedOut(cfg, rs, key)
    ensures forall i :: 0 <= i < |rs| && rs[i].key == key ==> Answers(cfg, map[], rs)[i]
  {
    SpacedOutFlows(cfg, rs, key);
    FlowsIsPaced(cfg, map[], rs, key);
    PacedIsAlwaysAllowed(cfg, map[], rs, key, if rs == [] then 0.0 else rs[0].now);
  }

  function Only(rs: seq<Request>, key: string): (out: seq<Request>)
    decreases |rs|
  {
    if rs == [] then [] else if rs[0].key == key then [rs[0]] + Only(rs[1..], key) else Only(rs[1..], key)
  }

  /** Keys do not affect each other: a key is allowed as many requests as if it were alone. */
  lemma {:induction false} KeysIndependent(cfg: Config, bs: Buckets, mine: Buckets, rs: seq<Request>, key: string)
    requires key in bs <==> key in mine
    requires key in bs ==> bs[key] == mine[key]
    ensures Allowed(key, rs, Answers(cfg, bs, rs)) == Allowed(key, Only(rs, key), Answers(cfg, mine, Only(rs, key)))
    decreases |rs|
  {
    if rs != [] {
      var r := rs[0];
      var a := Answered(cfg, bs, r);
      assert Answers(cfg, bs, rs)[1..] == Answers(cfg, a.buckets, rs[1..]);
      if r.key == key {
        var b := Answered(cfg, mine, r);
        var only := Only(rs, key);
        assert only[1..] == Only(rs[1..], key);
        KeysIndependent(cfg, a.buckets, b.buckets, rs[1..], key);
        assert Answers(cfg, mine, only)[1..] == Answers(cfg, b.buckets, only[1..]);
      } else {
        KeysIndependent(cfg, a.buckets, mine, rs[1..], key);
      }
    }
  }

  // ---------------------------------------------------------------- the limiter as it runs

  class RateLimiter {
    var buckets: Buckets
    const cfg: Config

    constructor (capacity: real, windowSec: real)
      requires windowSec > 0.0
      ensures buckets == map[] && cfg == Config(capacity, capacity / windowSec)
    {
      buckets := map[];
      cfg := Config(capacity, capacity / windowSec);
    }

    method Allow(key: string, now: real) returns (ok: bool)
      modifies this
      ensures Answer(buckets, ok) == Answered(cfg, old(buckets), Request(key, now))
    {
      if key !in buckets {
        buckets := buckets[key := Bucket(cfg.capacity - 1.0, now)];
        return true;
      }
      var b := buckets[key];
      var tokens := b.tokens + Inflow(cfg, b.lastTime, now);
      if tokens > cfg.capacity { tokens := cfg.capacity; }
      if tokens < 1.0 {
        buckets := buckets[key := Bucket(tokens, now)];
        return false;
      }
      buckets := buckets[key := Bucket(tokens - 1.0, now)];
      return true;
    }
  }
}
