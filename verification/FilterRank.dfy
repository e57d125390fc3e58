/** rank_in_filter (internal/snapshot/combination.go): the place of a run among every valid run
    that passes the filters. */
module FilterRank {
  import opened Common
  import opened Heat

  datatype Attrs = Attrs(driverClass: string, drivetrain: string, disp: string)

  /** An empty label and an absent id or heat filter nothing. */
  datatype Filters = Filters(driverClass: string, drivetrain: string, disp: string,
                             driver: Option<int>, vehicle: Option<int>, heat: Option<int>)

  /** A combination whose driver or vehicle is unknown matches no filter. */
  predicate ComboMatches(attrs: map<ComboKey, Attrs>, f: Filters, c: ComboKey) {
    && c in attrs
    && (f.driverClass != "" ==> attrs[c].driverClass == f.driverClass)
    && (f.drivetrain != "" ==> attrs[c].drivetrain == f.drivetrain)
    && (f.disp != "" ==> attrs[c].disp == f.disp)
    && (f.driver.Some? ==> c.driver == f.driver.value)
    && (f.vehicle.Some? ==> c.vehicle == f.vehicle.value)
  }

  predicate Pooled(s: set<RunRow>, attrs: map<ComboKey, Attrs>, f: Filters, rules: Rules, r: RunRow) {
    r in s && ComboMatches(attrs, f, r.combo) && (f.heat.Some? ==> HeatOf(s, r) == f.heat.value) && Counts(r, rules)
  }

  /** The pooled runs with a strictly better final time. */
  function FasterThan(s: set<RunRow>, attrs: map<ComboKey, Attrs>, f: Filters, rules: Rules, ms: int): (rs: set<RunRow>) {
    set r | r in s && Pooled(s, attrs, f, rules, r) && FinalMs(r, rules) < ms
  }

  predicate Nondecreasing(xs: seq<int>) {
    forall i, j :: 0 <= i < j < |xs| ==> xs[i] <= xs[j]
  }

  function CountBelow(xs: seq<int>, ms: int): (n: nat)
    ensures n <= |xs|
  {
    if xs == [] then 0 else CountBelow(xs[..|xs| - 1], ms) + (if xs[|xs| - 1] < ms then 1 else 0)
  }

  /** sort.Ints, of which callers may use only what it promises. */
  method SortInts(xs: seq<int>) returns (ys: seq<int>)
    ensures Nondecreasing(ys) && multiset(ys) == multiset(xs)
  {
    ys := [];
    var n := 0;
    while n < |xs|
      invariant 0 <= n <= |xs|
      invariant Nondecreasing(ys) && multiset(ys) == multiset(xs[..n])
    {
      var x := xs[n];
      var k := 0;
      while k < |ys| && ys[k] <= x
        invariant 0 <= k <= |ys|
        invariant forall m :: 0 <= m < k ==> ys[m] <= x
      {
        k := k + 1;
      }
      assert xs[..n + 1] == xs[..n] + [x];
      InsertInt(ys, k, x);
      ys := ys[..k] + [x] + ys[k..];
      n := n + 1;
    }
    assert xs[..n] == xs;
  }

  lemma InsertInt(ys: seq<int>, k: nat, x: int)
    requires Nondecreasing(ys) && k <= |ys|
    requires forall m :: 0 <= m < k ==> ys[m] <= x
    requires k < |ys| ==> x <= ys[k]
    ensures Nondecreasing(ys[..k] + [x] + ys[k..])
    ensures multiset(ys[..k] + [x] + ys[k..]) == multiset(ys) + multiset{x}
  {
    InsertSorted(ys, k, x);
    assert ys == ys[..k] + ys[k..];
  }

  lemma InsertSorted(ys: seq<int>, k: nat, x: int)
    requires Nondecreasing(ys) && k <= |ys|
    requires forall m :: 0 <= m < k ==> ys[m] <= x
    requires k < |ys| ==> x <= ys[k]
    ensures Nondecreasing(ys[..k] + [x] + ys[k..])
  {
    var out := ys[..k] + [x] + ys[k..];
    assert forall i :: 0 <= i < |out| ==> out[i] == if i < k then ys[i] else if i == k then x else ys[i - 1];
  }

  /** sort.SearchInts: binary search for the first element that is not below `ms`. */
  method SearchInts(xs: seq<int>, ms: int) returns (k: nat)
    requires Nondecreasing(xs)
    ensures k <= |xs|
    ensures forall i :: 0 <= i < k ==> xs[i] < ms
    ensures forall i :: k <= i < |xs| ==> ms <= xs[i]
  {
    var lo, hi := 0, |xs|;
    while lo < hi
      invariant 0 <= lo <= hi <= |xs|
      invariant forall i :: 0 <= i < lo ==> xs[i] < ms
      invariant forall i :: hi <= i < |xs| ==> ms <= xs[i]
    {
      var mid := lo + (hi - lo) / 2;
      if xs[mid] < ms { lo := mid + 1; } else { hi := mid; }
    }
    k := lo;
  }

  lemma {:induction false} SplitCounts(xs: seq<int>, ms: int, k: nat)
    requires k <= |xs|
    requires forall i :: 0 <= i < k ==> xs[i] < ms
    requires forall i :: k <= i < |xs| ==> ms <= xs[i]
    ensures CountBelow(xs, ms) == k
    decreases |xs|
  {
    if xs != [] {
      SplitCounts(xs[..|xs| - 1], ms, if k == |xs| then k - 1 else k);
    }
  }

  lemma {:induction false} CountBelowAppend(xs: seq<int>, ys: seq<int>, ms: int)
    ensures CountBelow(xs + ys, ms) == CountBelow(xs, ms) + CountBelow(ys, ms)
    decreases |ys|
  {
    if ys == [] {
      assert xs + ys == xs;
    } else {
      CountBelowAppend(xs, ys[..|ys| - 1], ms);
      assert (xs + ys)[..|xs + ys| - 1] == xs + ys[..|ys| - 1];
    }
  }

  /** Sorting does not change how many are below. */
  lemma {:induction false} CountBelowPermuted(xs: seq<int>, ys: seq<int>, ms: int)
    requires multiset(xs) == multiset(ys)
    ensures CountBelow(xs, ms) == CountBelow(ys, ms)
    decreases |xs|
  {
    if xs == [] {
      assert ys == [] by { assert |multiset(ys)| == |ys|; }
    } else {
      var x := xs[|xs| - 1];
      assert xs == xs[..|xs| - 1] + [x];
      assert x in multiset(xs) && x in ys;
      var k :| 0 <= k < |ys| && ys[k] == x;
      assert ys == ys[..k] + [x] + ys[k + 1..];
      var rest := ys[..k] + ys[k + 1..];
      assert multiset(rest) == multiset(ys) - multiset{x};
      assert multiset(xs[..|xs| - 1]) == multiset(xs) - multiset{x};
      CountBelowPermuted(xs[..|xs| - 1], rest, ms);
      CountBelowAppend(ys[..k], [x], ms);
      CountBelowAppend(ys[..k] + [x], ys[k + 1..], ms);
      CountBelowAppend(ys[..k], ys[k + 1..], ms);
      assert CountBelow([x], ms) == CountBelow([], ms) + (if x < ms then 1 else 0);
    }
  }

  /** The filter loop: one final time per pooled run. */
  method Population(runs: seq<RunRow>, heatByLogId: map<int, int>, attrs: map<ComboKey, Attrs>, f: Filters, rules: Rules)
      returns (population: seq<int>)
    requires DistinctRows(runs)
    requires forall r :: r in runs ==> r.logId in heatByLogId && heatByLogId[r.logId] == HeatOf(SetOf(runs), r)
    ensures forall ms :: CountBelow(population, ms) == |FasterThan(SetOf(runs), attrs, f, rules, ms)|
  {
    ghost var s := SetOf(runs);
    population := [];
    var i := 0;
    while i < |runs|
      invariant 0 <= i <= |runs|
      invariant forall ms :: CountBelow(population, ms) == |PooledBelow(s, runs[..i], attrs, f, rules, ms)|
    {
      var r := runs[i];
      assert r in runs && r in s;
      ghost var before := population;
      if ComboMatches(attrs, f, r.combo) && (f.heat == None || heatByLogId[r.logId] == f.heat.value) && Counts(r, rules) {
        population := population + [FinalMs(r, rules)];
        assert population[..|population| - 1] == before;
      }
      assert runs[..i + 1] == runs[..i] + [r];
      assert r !in runs[..i];
      forall ms ensures CountBelow(population, ms) == |PooledBelow(s, runs[..i + 1], attrs, f, rules, ms)| {
        PooledStep(s, runs[..i], r, attrs, f, rules, ms);
      }
      i := i + 1;
    }
    assert runs[..i] == runs;
    forall ms ensures PooledBelow(s, runs, attrs, f, rules, ms) == FasterThan(s, attrs, f, rules, ms) {
    }
  }

  function PooledBelow(s: set<RunRow>, front: seq<RunRow>, attrs: map<ComboKey, Attrs>, f: Filters, rules: Rules, ms: int): (rs: set<RunRow>) {
    set r | r in front && Pooled(s, attrs, f, rules, r) && FinalMs(r, rules) < ms
  }

  lemma PooledStep(s: set<RunRow>, front: seq<RunRow>, r: RunRow, attrs: map<ComboKey, Attrs>, f: Filters, rules: Rules, ms: int)
    requires r !in front
    ensures |PooledBelow(s, front + [r], attrs, f, rules, ms)| ==
            |PooledBelow(s, front, attrs, f, rules, ms)| + (if Pooled(s, attrs, f, rules, r) && FinalMs(r, rules) < ms then 1 else 0)
  {
    var b := PooledBelow(s, front, attrs, f, rules, ms);
    assert PooledBelow(s, front + [r], attrs, f, rules, ms) ==
           if Pooled(s, attrs, f, rules, r) && FinalMs(r, rules) < ms then b + {r} else b;
  }

  /** rank_in_filter is one more than the number of strictly faster valid runs passing the
      filters, for every final time asked about. */
  method RankInFilter(runs: seq<RunRow>, attrs: map<ComboKey, Attrs>, f: Filters, rules: Rules, mine: seq<RunRow>)
      returns (ranks: seq<Option<int>>)
    requires DistinctRows(runs)
    ensures |ranks| == |mine|
    ensures forall i :: 0 <= i < |mine| ==>
      ranks[i] == if Counts(mine[i], rules)
                  then Some(|FasterThan(SetOf(runs), attrs, f, rules, FinalMs(mine[i], rules))| + 1) else None
  {
    var heatByLogId := HeatNumbers(runs);
    var unsorted := Population(runs, heatByLogId, attrs, f, rules);
    var population := SortInts(unsorted);
    ranks := [];
    var i := 0;
    while i < |mine|
      invariant 0 <= i <= |mine| && |ranks| == i
      invariant forall k :: 0 <= k < i ==>
        ranks[k] == if Counts(mine[k], rules)
                    then Some(|FasterThan(SetOf(runs), attrs, f, rules, FinalMs(mine[k], rules))| + 1) else None
    {
      if Counts(mine[i], rules) {
        var ms := FinalMs(mine[i], rules);
        var k := SearchInts(population, ms);
        SplitCounts(population, ms, k);
        CountBelowPermuted(unsorted, population, ms);
        ranks := ranks + [Some(k + 1)];
      } else {
        ranks := ranks + [None];
      }
      i := i + 1;
    }
  }

  /** Ties share a rank; a slower run's rank skips every run that beats it. */
  lemma TiesShareAndSkip(s: set<RunRow>, attrs: map<ComboKey, Attrs>, f: Filters, rules: Rules, a: RunRow, b: RunRow)
    requires Pooled(s, attrs, f, rules, a) && Pooled(s, attrs, f, rules, b)
    ensures FinalMs(a, rules) == FinalMs(b, rules) ==>
              |FasterThan(s, attrs, f, rules, FinalMs(a, rules))| == |FasterThan(s, attrs, f, rules, FinalMs(b, rules))|
    ensures FinalMs(a, rules) < FinalMs(b, rules) ==>
              |FasterThan(s, attrs, f, rules, FinalMs(b, rules))| >=
              |FasterThan(s, attrs, f, rules, FinalMs(a, rules))| + |TiedWith(s, attrs, f, rules, a)|
    ensures |TiedWith(s, attrs, f, rules, a)| >= 1
  {
    var fa, fb := FasterThan(s, attrs, f, rules, FinalMs(a, rules)), FasterThan(s, attrs, f, rules, FinalMs(b, rules));
    var tied := TiedWith(s, attrs, f, rules, a);
    assert a in tied;
    if FinalMs(a, rules) < FinalMs(b, rules) {
      assert fa !! tied && fa + tied <= fb;
      SubsetSize(fa + tied, fb);
    }
  }

  function TiedWith(s: set<RunRow>, attrs: map<ComboKey, Attrs>, f: Filters, rules: Rules, a: RunRow): (rs: set<RunRow>) {
    set r | r in s && Pooled(s, attrs, f, rules, r) && FinalMs(r, rules) == FinalMs(a, rules)
  }

  lemma SubsetSize(a: set<RunRow>, b: set<RunRow>)
    requires a <= b
    ensures |a| <= |b|
  {
    assert b == a + (b - a);
    assert |b| == |a| + |b - a|;
  }
}
