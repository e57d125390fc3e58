/** The ranking (internal/domain/rank.go). A standing is defined from the SET of runs, so that
    neither the order rows come in, nor the order the combination map is walked in, nor the
    instability of the sort can show in the result. */
module Rank {
  import opened Common
  import opened Sorting
  import opened Heat

  datatype ComboMeta = ComboMeta(cc: int, isEv: bool)

  datatype Standing = Standing(combo: ComboKey, bestMs: Option<int>, secondMs: Option<int>, bestLogId: Option<int>,
                               bestAtMs: int, runs: int, validRuns: int, ptTotal: int, invalid: bool)

  function MetaOf(meta: map<ComboKey, ComboMeta>, c: ComboKey): (m: ComboMeta) {
    if c in meta then meta[c] else ComboMeta(0, false)
  }

  // ---------------------------------------------------------------- lessStanding

  predicate LessCombo(a: ComboKey, b: ComboKey) {
    if a.driver != b.driver then a.driver < b.driver else a.vehicle < b.vehicle
  }

  /** A row outside the trailing group has a best time. */
  predicate Shown(st: Standing) {
    !st.invalid ==> st.bestMs.Some?
  }

  predicate LessStanding(a: Standing, b: Standing, meta: map<ComboKey, ComboMeta>)
    requires Shown(a) && Shown(b)
  {
    if a.invalid != b.invalid then !a.invalid
    else if a.invalid then LessCombo(a.combo, b.combo)
    else if a.bestMs.value != b.bestMs.value then a.bestMs.value < b.bestMs.value
    else if a.secondMs.Some? != b.secondMs.Some? then a.secondMs.Some?
    else if a.secondMs.Some? && a.secondMs.value != b.secondMs.value then a.secondMs.value < b.secondMs.value
    else
      var am, bm := MetaOf(meta, a.combo), MetaOf(meta, b.combo);
      if am.isEv != bm.isEv then !am.isEv
      else if !am.isEv && am.cc != bm.cc then am.cc < bm.cc
      else if a.bestAtMs != b.bestAtMs then a.bestAtMs < b.bestAtMs
      else LessCombo(a.combo, b.combo)
  }

  function Flag(b: bool): (i: int) {
    if b then 1 else 0
  }

  /** The nine things compared, in order; what does not apply is levelled out. */
  function StandingKey(st: Standing, m: ComboMeta): (k: seq<int>)
    ensures |k| == 9
  {
    if st.invalid || st.bestMs == None then [1, 0, 0, 0, 0, 0, 0, st.combo.driver, st.combo.vehicle]
    else [0, st.bestMs.value, Flag(st.secondMs == None), if st.secondMs == None then 0 else st.secondMs.value,
          Flag(m.isEv), if m.isEv then 0 else m.cc, st.bestAtMs, st.combo.driver, st.combo.vehicle]
  }

  /** Strict lexicographic order on nine integers, written out. */
  predicate Lex9(a: seq<int>, b: seq<int>)
    requires |a| == 9 && |b| == 9
  {
    if a[0] != b[0] then a[0] < b[0]
    else if a[1] != b[1] then a[1] < b[1]
    else if a[2] != b[2] then a[2] < b[2]
    else if a[3] != b[3] then a[3] < b[3]
    else if a[4] != b[4] then a[4] < b[4]
    else if a[5] != b[5] then a[5] < b[5]
    else if a[6] != b[6] then a[6] < b[6]
    else if a[7] != b[7] then a[7] < b[7]
    else a[8] < b[8]
  }

  lemma LexIsLex9(a: seq<int>, b: seq<int>)
    requires |a| == 9 && |b| == 9
    ensures Lex(a, b) <==> Lex9(a, b)
  {
    LexTail(a, b, 0); LexTail(a, b, 1); LexTail(a, b, 2);
    LexTail(a, b, 3); LexTail(a, b, 4); LexTail(a, b, 5);
    LexTail(a, b, 6); LexTail(a, b, 7); LexTail(a, b, 8);
    assert a[0..] == a && b[0..] == b;
    assert a[9..] == [];
  }

  lemma LexTail(a: seq<int>, b: seq<int>, i: nat)
    requires |a| == 9 && |b| == 9 && i < 9
    ensures Lex(a[i..], b[i..]) <==> if a[i] != b[i] then a[i] < b[i] else Lex(a[i + 1..], b[i + 1..])
  {
    assert a[i..][1..] == a[i + 1..] && b[i..][1..] == b[i + 1..];
  }

  /** lessStanding is the lexicographic order of a key that ends in the combination: a strict
      total order on standings of different combinations. */
  lemma LessIsLex(a: Standing, b: Standing, meta: map<ComboKey, ComboMeta>)
    requires Shown(a) && Shown(b)
    ensures LessStanding(a, b, meta) <==> Lex(StandingKey(a, MetaOf(meta, a.combo)), StandingKey(b, MetaOf(meta, b.combo)))
  {
    LexIsLex9(StandingKey(a, MetaOf(meta, a.combo)), StandingKey(b, MetaOf(meta, b.combo)));
  }

  lemma LessIsStrictTotal(a: Standing, b: Standing, c: Standing, meta: map<ComboKey, ComboMeta>)
    requires Shown(a) && Shown(b) && Shown(c)
    ensures !LessStanding(a, a, meta)
    ensures LessStanding(a, b, meta) && LessStanding(b, c, meta) ==> LessStanding(a, c, meta)
    ensures a.combo != b.combo ==> LessStanding(a, b, meta) || LessStanding(b, a, meta)
    ensures !(LessStanding(a, b, meta) && LessStanding(b, a, meta))
  {
    var ka, kb, kc := StandingKey(a, MetaOf(meta, a.combo)), StandingKey(b, MetaOf(meta, b.combo)), StandingKey(c, MetaOf(meta, c.combo));
    LessIsLex(a, a, meta); LessIsLex(a, b, meta); LessIsLex(b, a, meta); LessIsLex(b, c, meta); LessIsLex(a, c, meta);
    LexIrreflexive(ka);
    LexTotal(ka, kb);
    if Lex(ka, kb) { LexAsymmetric(ka, kb); }
    if Lex(ka, kb) && Lex(kb, kc) { LexTransitive(ka, kb, kc); }
    assert a.combo != b.combo ==> ka[7] != kb[7] || ka[8] != kb[8];
  }

  // ---------------------------------------------------------------- standings of a set of runs

  function ValidOf(s: set<RunRow>, c: ComboKey, rules: Rules): (rs: set<RunRow>) {
    set r | r in s && r.combo == c && Counts(r, rules)
  }

  /** The order of a combination's own valid runs: final time, then timestamp, then log id. */
  predicate Faster(a: RunRow, b: RunRow, rules: Rules) {
    if FinalMs(a, rules) != FinalMs(b, rules) then FinalMs(a, rules) < FinalMs(b, rules) else Earlier(a, b)
  }

  ghost predicate IsFastest(rs: set<RunRow>, b: RunRow, rules: Rules) {
    b in rs && forall x :: x in rs && x != b ==> Faster(b, x, rules)
  }

  ghost function SumPt(rs: set<RunRow>): (n: int) {
    if rs == {} then 0
    else
      HasRow(rs);
      var r :| r in rs;
      r.pt + SumPt(rs - {r})
  }

  lemma {:induction false} SumPtAdd(rs: set<RunRow>, x: RunRow)
    requires x !in rs
    ensures SumPt(rs + {x}) == SumPt(rs) + x.pt
    decreases |rs|
  {
    var all := rs + {x};
    assert all != {};
    HasRow(all);
    var r :| r in all && SumPt(all) == r.pt + SumPt(all - {r});
    if r == x {
      assert all - {r} == rs;
    } else {
      assert all - {r} == (rs - {r}) + {x};
      SumPtAdd(rs - {r}, x);
      SumPtAdd(rs - {r}, r);
      assert (rs - {r}) + {r} == rs;
    }
  }

  /** No run at this heat, or one that does not count. */
  ghost predicate NoBest(st: Standing) {
    st.invalid && st.bestMs == None && st.secondMs == None && st.bestLogId == None && st.bestAtMs == 0
  }

  ghost predicate BestIs(st: Standing, b: RunRow, rules: Rules) {
    !st.invalid && st.bestMs == Some(FinalMs(b, rules)) && st.bestLogId == Some(b.logId) && st.bestAtMs == b.atMs
  }

  /** Best and second are the two fastest valid runs. */
  ghost predicate OverallBest(st: Standing, s: set<RunRow>, rules: Rules) {
    var valid := ValidOf(s, st.combo, rules);
    if valid == {} then NoBest(st)
    else exists b :: IsFastest(valid, b, rules) && BestIs(st, b, rules) && SecondIs(st, valid - {b}, rules)
  }

  ghost predicate SecondIs(st: Standing, others: set<RunRow>, rules: Rules) {
    if others == {} then st.secondMs == None
    else exists x :: IsFastest(others, x, rules) && st.secondMs == Some(FinalMs(x, rules))
  }

  /** In a heat ranking, the combination's run of that heat is its best and there is no second. */
  ghost predicate HeatBest(st: Standing, s: set<RunRow>, rules: Rules, heat: int) {
    && st.secondMs == None
    && if exists r :: r in Of(s, st.combo) && HeatOf(s, r) == heat && Counts(r, rules)
       then exists r :: r in Of(s, st.combo) && HeatOf(s, r) == heat && Counts(r, rules) && BestIs(st, r, rules)
       else NoBest(st)
  }

  ghost predicate IsStanding(st: Standing, s: set<RunRow>, rules: Rules, heat: int) {
    && st.runs == |Of(s, st.combo)|
    && st.validRuns == |ValidOf(s, st.combo, rules)|
    && st.ptTotal == SumPt(Of(s, st.combo))
    && if heat > 0 then HeatBest(st, s, rules, heat) else OverallBest(st, s, rules)
  }

  ghost predicate HasStanding(out: seq<Standing>, c: ComboKey) {
    exists i :: 0 <= i < |out| && out[i].combo == c
  }

  ghost predicate HasRun(s: set<RunRow>, c: ComboKey) {
    exists r :: r in s && r.combo == c
  }

  /** `out` is the ranking of the runs in `s`. */
  ghost predicate IsRanking(s: set<RunRow>, meta: map<ComboKey, ComboMeta>, rules: Rules, heat: int, out: seq<Standing>) {
    && (forall i :: 0 <= i < |out| ==> Shown(out[i]) && IsStanding(out[i], s, rules, heat))
    && (forall c :: HasStanding(out, c) <==> HasRun(s, c))
    && (forall i, j :: 0 <= i < j < |out| ==> LessStanding(out[i], out[j], meta))
  }

  // ---------------------------------------------------------------- the ranking is a function of the set

  lemma FastestUnique(rs: set<RunRow>, a: RunRow, b: RunRow, rules: Rules)
    requires IsFastest(rs, a, rules) && IsFastest(rs, b, rules)
    ensures a == b
  {
  }

  lemma {:induction false} FastestExists(rs: set<RunRow>, rules: Rules)
    requires DistinctIds(rs) && rs != {}
    ensures exists b :: IsFastest(rs, b, rules)
    decreases |rs|
  {
    HasRow(rs);
    var a :| a in rs;
    if rs == {a} {
      assert IsFastest(rs, a, rules);
    } else {
      assert rs - {a} != {};
      FastestExists(rs - {a}, rules);
      var m :| IsFastest(rs - {a}, m, rules);
      var best := if Faster(a, m, rules) then a else m;
      forall x | x in rs && x != best ensures Faster(best, x, rules) {
        if x != a && x != m { assert x in rs - {a}; }
      }
      assert IsFastest(rs, best, rules);
    }
  }

  lemma StandingUnique(a: Standing, b: Standing, s: set<RunRow>, rules: Rules, heat: int)
    requires DistinctIds(s)
    requires IsStanding(a, s, rules, heat) && IsStanding(b, s, rules, heat) && a.combo == b.combo
    ensures a == b
  {
    if heat > 0 {
      HeatBijection(s, a.combo);
    } else {
      var valid := ValidOf(s, a.combo, rules);
      if valid != {} {
        var x :| IsFastest(valid, x, rules) && BestIs(a, x, rules) && SecondIs(a, valid - {x}, rules);
        var y :| IsFastest(valid, y, rules) && BestIs(b, y, rules) && SecondIs(b, valid - {y}, rules);
        FastestUnique(valid, x, y, rules);
        if valid - {x} != {} {
          var p :| IsFastest(valid - {x}, p, rules) && a.secondMs == Some(FinalMs(p, rules));
          var q :| IsFastest(valid - {x}, q, rules) && b.secondMs == Some(FinalMs(q, rules));
          FastestUnique(valid - {x}, p, q, rules);
        }
      }
    }
  }

  function KeyWith(meta: map<ComboKey, ComboMeta>): (k: Standing -> seq<int>) {
    (st: Standing) => StandingKey(st, MetaOf(meta, st.combo))
  }

  lemma RankingAscends(s: set<RunRow>, meta: map<ComboKey, ComboMeta>, rules: Rules, heat: int, out: seq<Standing>)
    requires IsRanking(s, meta, rules, heat, out)
    ensures Ascending(KeyWith(meta), out)
  {
    forall i, j | 0 <= i < j < |out| ensures Lex(KeyWith(meta)(out[i]), KeyWith(meta)(out[j])) {
      LessIsLex(out[i], out[j], meta);
    }
  }

  lemma SameMembers(s: set<RunRow>, meta: map<ComboKey, ComboMeta>, rules: Rules, heat: int, a: seq<Standing>, b: seq<Standing>, st: Standing)
    requires DistinctIds(s)
    requires IsRanking(s, meta, rules, heat, a) && IsRanking(s, meta, rules, heat, b)
    requires st in a
    ensures st in b
  {
    var i :| 0 <= i < |a| && a[i] == st;
    assert HasStanding(a, st.combo);
    assert HasStanding(b, st.combo);
    var j :| 0 <= j < |b| && b[j].combo == st.combo;
    StandingUnique(a[i], b[j], s, rules, heat);
  }

  /** A set of runs has at most one ranking. */
  lemma RankingUnique(s: set<RunRow>, meta: map<ComboKey, ComboMeta>, rules: Rules, heat: int, a: seq<Standing>, b: seq<Standing>)
    requires DistinctIds(s)
    requires IsRanking(s, meta, rules, heat, a) && IsRanking(s, meta, rules, heat, b)
    ensures a == b
  {
    RankingAscends(s, meta, rules, heat, a);
    RankingAscends(s, meta, rules, heat, b);
    forall st ensures st in a <==> st in b {
      if st in a { SameMembers(s, meta, rules, heat, a, b, st); }
      if st in b { SameMembers(s, meta, rules, heat, b, a, st); }
    }
    AscendingUnique(KeyWith(meta), a, b);
  }

  /** Whatever order the rows come in, the ranking is the same: any two results that are rankings
      of permutations of the same rows are equal. */
  lemma OrderOfRowsDoesNotMatter(runs: seq<RunRow>, shuffled: seq<RunRow>, meta: map<ComboKey, ComboMeta>, rules: Rules, heat: int,
                                 a: seq<Standing>, b: seq<Standing>)
    requires DistinctRows(runs) && multiset(runs) == multiset(shuffled)
    requires IsRanking(SetOf(runs), meta, rules, heat, a) && IsRanking(SetOf(shuffled), meta, rules, heat, b)
    ensures a == b
  {
    assert SetOf(runs) == SetOf(shuffled) by {
      forall r ensures r in runs <==> r in shuffled {
        assert r in runs <==> r in multiset(runs);
        assert r in shuffled <==> r in multiset(shuffled);
      }
    }
    DistinctRowsSet(runs);
    RankingUnique(SetOf(runs), meta, rules, heat, a, b);
  }

  /** One row per combination; rows with a time come first, by time; the trailing group is in
      order of combination. */
  lemma RankingShape(s: set<RunRow>, meta: map<ComboKey, ComboMeta>, rules: Rules, heat: int, out: seq<Standing>, i: nat, j: nat)
    requires DistinctIds(s) && IsRanking(s, meta, rules, heat, out) && i < j < |out|
    ensures out[i].combo != out[j].combo
    ensures out[i].invalid ==> out[j].invalid && LessCombo(out[i].combo, out[j].combo)
    ensures !out[i].invalid && !out[j].invalid ==> out[i].bestMs.value <= out[j].bestMs.value
  {
    if out[i].combo == out[j].combo {
      StandingUnique(out[i], out[j], s, rules, heat);
      LessIsStrictTotal(out[i], out[j], out[j], meta);
    }
  }

  /** Every run is counted once: the `runs` column adds up to the number of runs. */
  lemma {:induction false} RunsAddUp(s: set<RunRow>, out: seq<Standing>)
    requires forall i :: 0 <= i < |out| ==> out[i].runs == |Of(s, out[i].combo)|
    requires forall i, j :: 0 <= i < j < |out| ==> out[i].combo != out[j].combo
    requires forall r :: r in s ==> HasStanding(out, r.combo)
    ensures SumRuns(out) == |s|
    decreases |out|
  {
    if out == [] {
      if s != {} { HasRow(s); }
    } else {
      var c := out[0].combo;
      var rest := set r | r in s && r.combo != c;
      var tail := out[1..];
      assert s == Of(s, c) + rest && Of(s, c) !! rest;
      forall i | 0 <= i < |tail| ensures tail[i].runs == |Of(rest, tail[i].combo)| {
        assert tail[i] == out[i + 1];
        assert Of(rest, tail[i].combo) == Of(s, tail[i].combo);
      }
      forall r | r in rest ensures HasStanding(tail, r.combo) {
        assert HasStanding(out, r.combo);
        var i :| 0 <= i < |out| && out[i].combo == r.combo;
        assert tail[i - 1].combo == r.combo;
      }
      RunsAddUp(rest, tail);
    }
  }

  function SumRuns(out: seq<Standing>): (n: int) {
    if out == [] then 0 else out[0].runs + SumRuns(out[1..])
  }

  /** The `runs` column of a ranking adds up to the number of runs ranked. */
  lemma RankingCountsEveryRun(s: set<RunRow>, meta: map<ComboKey, ComboMeta>, rules: Rules, heat: int, out: seq<Standing>)
    requires DistinctIds(s) && IsRanking(s, meta, rules, heat, out)
    ensures SumRuns(out) == |s|
  {
    forall i, j | 0 <= i < j < |out| ensures out[i].combo != out[j].combo { RankingShape(s, meta, rules, heat, out, i, j); }
    forall r | r in s ensures HasStanding(out, r.combo) { assert HasRun(s, r.combo); }
    RunsAddUp(s, out);
  }

  // ---------------------------------------------------------------- Rank

  function FasterKey(rules: Rules): (k: RunRow -> seq<int>) {
    (r: RunRow) => [FinalMs(r, rules), r.atMs, r.logId]
  }

  lemma FasterIsLex(a: RunRow, b: RunRow, rules: Rules)
    ensures Faster(a, b, rules) <==> Lex(FasterKey(rules)(a), FasterKey(rules)(b))
  {
    var x, y := FasterKey(rules)(a), FasterKey(rules)(b);
    EarlierIsLex(a, b);
    assert x[1..] == HeatKey(a) && y[1..] == HeatKey(b);
  }

  function ValidIn(rs: seq<RunRow>, rules: Rules): (v: set<RunRow>) {
    set r | r in rs && Counts(r, rules)
  }

  lemma CountStep(front: seq<RunRow>, r: RunRow, rules: Rules)
    requires r !in front
    ensures |ValidIn(front + [r], rules)| == |ValidIn(front, rules)| + (if Counts(r, rules) then 1 else 0)
    ensures SumPt(SetOf(front + [r])) == SumPt(SetOf(front)) + r.pt
  {
    SumPtAdd(SetOf(front), r);
    assert SetOf(front + [r]) == SetOf(front) + {r};
    var v := ValidIn(front, rules);
    assert ValidIn(front + [r], rules) == if Counts(r, rules) then v + {r} else v;
  }

  method CountRuns(rs: seq<RunRow>, rules: Rules) returns (valid: int, ptTotal: int)
    requires DistinctRows(rs)
    ensures valid == |ValidIn(rs, rules)|
    ensures ptTotal == SumPt(SetOf(rs))
  {
    valid, ptTotal := 0, 0;
    var i := 0;
    while i < |rs|
      invariant 0 <= i <= |rs|
      invariant valid == |ValidIn(rs[..i], rules)|
      invariant ptTotal == SumPt(SetOf(rs[..i]))
    {
      assert rs[..i + 1] == rs[..i] + [rs[i]];
      CountStep(rs[..i], rs[i], rules);
      if Counts(rs[i], rules) { valid := valid + 1; }
      ptTotal := ptTotal + rs[i].pt;
      i := i + 1;
    }
    assert rs[..i] == rs;
  }

  /** applyOverallBest: sort the valid runs, take the first two. */
  method ApplyOverallBest(st: Standing, rs: seq<RunRow>, rules: Rules, ghost s: set<RunRow>) returns (out: Standing)
    requires DistinctRows(rs) && NoBest(st.(invalid := true))
    requires forall r :: r in rs <==> r in Of(s, st.combo)
    ensures OverallBest(out, s, rules) && Shown(out)
    ensures out == st.(bestMs := out.bestMs, secondMs := out.secondMs, bestLogId := out.bestLogId, bestAtMs := out.bestAtMs, invalid := out.invalid)
  {
    var finals := ValidRows(rs, rules);
    ghost var valid := ValidOf(s, st.combo, rules);
    assert forall r :: r in finals <==> r in valid;
    if |finals| == 0 {
      assert valid == {};
      return st.(invalid := true);
    }
    forall x, y ensures Faster(x, y, rules) == Lex(FasterKey(rules)(x), FasterKey(rules)(y)) { FasterIsLex(x, y, rules); }
    forall i, j | 0 <= i < j < |finals| ensures FasterKey(rules)(finals[i]) != FasterKey(rules)(finals[j]) {
      assert FasterKey(rules)(finals[i])[2] != FasterKey(rules)(finals[j])[2];
    }
    var sorted := SortSlice(finals, (x, y) => Faster(x, y, rules), FasterKey(rules), 3);
    var best := sorted[0];
    FirstIsFastest(sorted, valid, rules);
    out := st.(bestMs := Some(FinalMs(best, rules)), bestLogId := Some(best.logId), bestAtMs := best.atMs, invalid := false);
    TailMembers(FasterKey(rules), sorted);
    if |sorted| > 1 {
      out := out.(secondMs := Some(FinalMs(sorted[1], rules)));
      FirstIsFastest(sorted[1..], valid - {best}, rules);
    } else {
      assert valid - {best} == {};
    }
    assert SecondIs(out, valid - {best}, rules);
  }

  method ValidRows(rs: seq<RunRow>, rules: Rules) returns (finals: seq<RunRow>)
    requires DistinctRows(rs)
    ensures DistinctRows(finals)
    ensures forall r :: r in finals <==> r in rs && Counts(r, rules)
  {
    finals := [];
    var i := 0;
    while i < |rs|
      invariant 0 <= i <= |rs|
      invariant DistinctRows(finals)
      invariant forall r :: r in finals <==> r in rs[..i] && Counts(r, rules)
    {
      var r := rs[i];
      assert rs[..i + 1] == rs[..i] + [r];
      forall k | 0 <= k < |finals| ensures finals[k].logId != r.logId {
        var x := finals[k];
        assert x in finals && x in rs[..i];
      }
      if Counts(r, rules) { finals := finals + [r]; }
      i := i + 1;
    }
    assert rs[..i] == rs;
  }

  lemma FirstIsFastest(sorted: seq<RunRow>, rs: set<RunRow>, rules: Rules)
    requires sorted != [] && Ascending(FasterKey(rules), sorted)
    requires forall r :: r in sorted <==> r in rs
    ensures IsFastest(rs, sorted[0], rules)
  {
    var b := sorted[0];
    assert b in sorted;
    forall x | x in rs && x != b ensures Faster(b, x, rules) {
      assert x in sorted;
      var k :| 0 <= k < |sorted| && sorted[k] == x;
      FasterIsLex(b, x, rules);
    }
  }

  /** applyHeatBest: the first run that carries the heat number decides. */
  method ApplyHeatBest(st: Standing, rs: seq<RunRow>, heatNos: map<int, int>, heat: int, rules: Rules, ghost s: set<RunRow>) returns (out: Standing)
    requires NoBest(st.(invalid := true)) && DistinctIds(s)
    requires forall r :: r in rs <==> r in Of(s, st.combo)
    requires forall r :: r in s ==> r.logId in heatNos && heatNos[r.logId] == HeatOf(s, r)
    ensures HeatBest(out, s, rules, heat) && Shown(out)
    ensures out == st.(bestMs := out.bestMs, bestLogId := out.bestLogId, bestAtMs := out.bestAtMs, invalid := out.invalid)
  {
    var i := 0;
    while i < |rs|
      invariant 0 <= i <= |rs|
      invariant forall k :: 0 <= k < i ==> HeatOf(s, rs[k]) != heat
    {
      var r := rs[i];
      assert r in rs;
      if heatNos[r.logId] == heat {
        if Counts(r, rules) {
          out := st.(bestMs := Some(FinalMs(r, rules)), bestLogId := Some(r.logId), bestAtMs := r.atMs, invalid := false);
        } else {
          out := st.(invalid := true);
        }
        HeatBestAt(out, s, rules, heat, r);
        return;
      }
      i := i + 1;
    }
    out := st.(invalid := true);
    HeatBestNone(out, s, rules, heat, rs);
  }

  /** The run of the heat decides the row. */
  lemma HeatBestAt(st: Standing, s: set<RunRow>, rules: Rules, heat: int, r: RunRow)
    requires DistinctIds(s) && r in Of(s, st.combo) && HeatOf(s, r) == heat && st.secondMs == None
    requires if Counts(r, rules) then BestIs(st, r, rules) else NoBest(st)
    ensures HeatBest(st, s, rules, heat)
  {
    HeatBijection(s, st.combo);
    assert forall x :: x in Of(s, st.combo) && HeatOf(s, x) == heat ==> x == r;
  }

  lemma HeatBestNone(st: Standing, s: set<RunRow>, rules: Rules, heat: int, rs: seq<RunRow>)
    requires NoBest(st) && (forall r :: r in Of(s, st.combo) ==> r in rs)
    requires forall k :: 0 <= k < |rs| ==> HeatOf(s, rs[k]) != heat
    ensures HeatBest(st, s, rules, heat)
  {
    forall r | r in Of(s, st.combo) ensures HeatOf(s, r) != heat { assert r in rs; }
  }

  method StandingOf(runs: seq<RunRow>, c: ComboKey, rs: seq<RunRow>, heatNos: map<int, int>, rules: Rules, heat: int) returns (st: Standing)
    requires DistinctRows(runs) && DistinctRows(rs)
    requires forall r :: r in rs <==> r in Of(SetOf(runs), c)
    requires heat > 0 ==> forall r :: r in runs ==> r.logId in heatNos && heatNos[r.logId] == HeatOf(SetOf(runs), r)
    ensures st.combo == c && Shown(st) && IsStanding(st, SetOf(runs), rules, heat)
  {
    ghost var s := SetOf(runs);
    DistinctRowsSet(runs);
    var valid, pts := CountRuns(rs, rules);
    assert ValidIn(rs, rules) == ValidOf(s, c, rules);
    assert SetOf(rs) == Of(s, c);
    SizeOfDistinct(rs);
    st := Standing(c, None, None, None, 0, |rs|, valid, pts, false);
    if heat > 0 {
      st := ApplyHeatBest(st, rs, heatNos, heat, rules, s);
    } else {
      st := ApplyOverallBest(st, rs, rules, s);
    }
  }

  /** Rank: for rows with distinct log ids, in any order, and for any order of walking the
      combination map, the result is the ranking of the set of rows. */
  method Rank(runs: seq<RunRow>, meta: map<ComboKey, ComboMeta>, rules: Rules, heat: int) returns (standings: seq<Standing>)
    requires DistinctRows(runs)
    ensures IsRanking(SetOf(runs), meta, rules, heat, standings)
  {
    ghost var s := SetOf(runs);
    DistinctRowsSet(runs);
    var byCombo := GroupByCombo(runs);
    var heatNos := map[];
    if heat > 0 { heatNos := HeatNumbers(runs); }

    var rows: seq<Standing> := [];
    var todo := byCombo.Keys;
    while todo != {}
      invariant RowsSoFar(s, byCombo.Keys, todo, rules, heat, rows)
      decreases |todo|
    {
      HasCombo(todo);
      var c :| c in todo;
      var st := StandingOf(runs, c, byCombo[c], heatNos, rules, heat);
      RowAdded(s, byCombo.Keys, todo, rules, heat, rows, st);
      rows := rows + [st];
      todo := todo - {c};
    }
    standings := SortStandings(rows, meta);
    RankingFrom(runs, byCombo, meta, rules, heat, rows, standings);
  }

  /** One row for each combination that is no longer to do. */
  ghost predicate RowsSoFar(s: set<RunRow>, combos: set<ComboKey>, todo: set<ComboKey>, rules: Rules, heat: int, rows: seq<Standing>) {
    && todo <= combos
    && (forall i :: 0 <= i < |rows| ==> rows[i].combo in combos && rows[i].combo !in todo)
    && (forall i, j :: 0 <= i < j < |rows| ==> rows[i].combo != rows[j].combo)
    && (forall i :: 0 <= i < |rows| ==> Shown(rows[i]) && IsStanding(rows[i], s, rules, heat))
    && (forall c :: c in combos && c !in todo ==> HasStanding(rows, c))
  }

  lemma RowAdded(s: set<RunRow>, combos: set<ComboKey>, todo: set<ComboKey>, rules: Rules, heat: int, rows: seq<Standing>, st: Standing)
    requires RowsSoFar(s, combos, todo, rules, heat, rows)
    requires st.combo in todo && Shown(st) && IsStanding(st, s, rules, heat)
    ensures RowsSoFar(s, combos, todo - {st.combo}, rules, heat, rows + [st])
  {
    var after := rows + [st];
    assert forall i :: 0 <= i < |rows| ==> after[i] == rows[i];
    assert after[|rows|] == st;
    forall d | d in combos && d !in todo - {st.combo} ensures HasStanding(after, d) {
      if d == st.combo { assert after[|rows|].combo == d; }
      else { var i :| 0 <= i < |rows| && rows[i].combo == d; assert after[i].combo == d; }
    }
  }

  method SortStandings(rows: seq<Standing>, meta: map<ComboKey, ComboMeta>) returns (sorted: seq<Standing>)
    requires forall i :: 0 <= i < |rows| ==> Shown(rows[i])
    requires forall i, j :: 0 <= i < j < |rows| ==> rows[i].combo != rows[j].combo
    ensures Ascending(KeyWith(meta), sorted) && |sorted| == |rows|
    ensures forall st :: st in sorted <==> st in rows
  {
    var less := (x: Standing, y: Standing) => Shown(x) && Shown(y) && LessStanding(x, y, meta);
    forall x, y | x in rows && y in rows ensures less(x, y) == Lex(KeyWith(meta)(x), KeyWith(meta)(y)) {
      LessIsLex(x, y, meta);
    }
    forall i, j | 0 <= i < j < |rows| ensures KeyWith(meta)(rows[i]) != KeyWith(meta)(rows[j]) {
      var a, b := KeyWith(meta)(rows[i]), KeyWith(meta)(rows[j]);
      assert a[7] == rows[i].combo.driver && a[8] == rows[i].combo.vehicle;
      assert b[7] == rows[j].combo.driver && b[8] == rows[j].combo.vehicle;
    }
    sorted := SortSlice(rows, less, KeyWith(meta), 9);
  }

  lemma RankingFrom(runs: seq<RunRow>, byCombo: map<ComboKey, seq<RunRow>>, meta: map<ComboKey, ComboMeta>, rules: Rules, heat: int,
                    rows: seq<Standing>, sorted: seq<Standing>)
    requires DistinctRows(runs) && Grouped(runs, byCombo)
    requires forall i :: 0 <= i < |rows| ==> rows[i].combo in byCombo && Shown(rows[i]) && IsStanding(rows[i], SetOf(runs), rules, heat)
    requires forall c :: c in byCombo ==> HasStanding(rows, c)
    requires Ascending(KeyWith(meta), sorted)
    requires forall st :: st in sorted <==> st in rows
    ensures IsRanking(SetOf(runs), meta, rules, heat, sorted)
  {
    var s := SetOf(runs);
    forall i | 0 <= i < |sorted| ensures Shown(sorted[i]) && IsStanding(sorted[i], s, rules, heat) && sorted[i].combo in byCombo {
      var st := sorted[i];
      assert st in sorted && st in rows;
    }
    forall c ensures HasStanding(sorted, c) <==> HasRun(s, c) {
      if HasStanding(sorted, c) {
        var i :| 0 <= i < |sorted| && sorted[i].combo == c;
        var r := byCombo[c][0];
        assert r in byCombo[c];
      }
      if HasRun(s, c) {
        var r :| r in s && r.combo == c;
        assert c in byCombo;
        var k :| 0 <= k < |rows| && rows[k].combo == c;
        var st := rows[k];
        assert st in rows && st in sorted;
        var i :| 0 <= i < |sorted| && sorted[i] == st;
      }
    }
    forall i, j | 0 <= i < j < |sorted| ensures LessStanding(sorted[i], sorted[j], meta) {
      LessIsLex(sorted[i], sorted[j], meta);
    }
  }
}
