/** What a ranking says, in terms of the runs' own numbers and the rules alone
    (internal/domain: rank.go, final.go, heat.go; internal/snapshot/combination.go). */
module RankLaws {
  import opened Common
  import opened Heat
  import opened Rank
  import opened RankMonotone
  import FR = FilterRank

  /** The run is out: by a missed course, or by a touch where the rules say so. */
  predicate IsOut(r: RunRow, rules: Rules) {
    r.mc || (rules.mode == Invalidate && r.pt > 0)
  }

  /** The time that counts: each touch costs the penalty in add mode, and nothing in any other. */
  predicate TakesMs(r: RunRow, rules: Rules, ms: int) {
    (rules.mode == Add ==> ms == r.rawMs + r.pt * rules.penaltyMs) && (rules.mode != Add ==> ms == r.rawMs)
  }

  lemma FinalIsTold(r: RunRow, rules: Rules)
    ensures TakesMs(r, rules, FinalMs(r, rules))
    ensures forall ms :: TakesMs(r, rules, ms) ==> ms == FinalMs(r, rules)
    ensures Counts(r, rules) <==> !IsOut(r, rules)
  {
  }

  /** A run of the combination that is not out. */
  predicate RunOf(s: set<RunRow>, c: ComboKey, rules: Rules, r: RunRow) {
    r in s && r.combo == c && !IsOut(r, rules)
  }

  /** The combination's best run takes `ms` and was at `at`: no other run of it takes less, or as
      much and earlier, or as much at the same moment with a smaller log id. */
  ghost predicate IsBest(s: set<RunRow>, c: ComboKey, rules: Rules, b: RunRow, ms: int) {
    && RunOf(s, c, rules, b) && TakesMs(b, rules, ms)
    && forall r, m :: RunOf(s, c, rules, r) && r != b && TakesMs(r, rules, m) ==>
         ms < m || (ms == m && (b.atMs < r.atMs || (b.atMs == r.atMs && b.logId < r.logId)))
  }

  /** The best time of the combination's other runs, if it has any. */
  ghost predicate IsSecond(s: set<RunRow>, c: ComboKey, rules: Rules, b: RunRow, second: Option<int>) {
    match second
    case None => forall r :: RunOf(s, c, rules, r) ==> r == b
    case Some(ms) =>
      && (exists r :: RunOf(s, c, rules, r) && r != b && TakesMs(r, rules, ms))
      && forall r, m :: RunOf(s, c, rules, r) && r != b && TakesMs(r, rules, m) ==> ms <= m
  }

  /** In the listing of all heats, a combination is in the trailing group exactly when every run of
      it is out; otherwise its best and second time are those of its best run and of the others. */
  lemma BestAndSecondAreTold(s: set<RunRow>, meta: map<ComboKey, ComboMeta>, rules: Rules, out: seq<Standing>, i: int)
    requires DistinctIds(s) && IsRanking(s, meta, rules, 0, out) && 0 <= i < |out|
    ensures var st := out[i]; var c := st.combo;
            && (st.invalid <==> forall r :: r in s && r.combo == c ==> IsOut(r, rules))
            && (!st.invalid ==> exists b :: st.bestMs.Some? && IsBest(s, c, rules, b, st.bestMs.value) && st.bestAtMs == b.atMs
                                            && st.bestLogId == Some(b.logId) && IsSecond(s, c, rules, b, st.secondMs))
  {
    var st := out[i];
    var valid := ValidOf(s, st.combo, rules);
    assert IsStanding(st, s, rules, 0);
    forall r ensures r in valid <==> RunOf(s, st.combo, rules, r) { FinalIsTold(r, rules); }
    if valid == {} {
      forall r | r in s && r.combo == st.combo ensures IsOut(r, rules) { assert r !in valid; }
    } else {
      var b :| IsFastest(valid, b, rules) && BestIs(st, b, rules) && SecondIs(st, valid - {b}, rules);
      FastestIsBest(s, st.combo, rules, b);
      SecondIsTold(s, st.combo, rules, b, st);
    }
  }

  lemma FastestIsBest(s: set<RunRow>, c: ComboKey, rules: Rules, b: RunRow)
    requires IsFastest(ValidOf(s, c, rules), b, rules)
    ensures IsBest(s, c, rules, b, FinalMs(b, rules))
  {
    FinalIsTold(b, rules);
    forall r, m | RunOf(s, c, rules, r) && r != b && TakesMs(r, rules, m)
      ensures FinalMs(b, rules) < m || (FinalMs(b, rules) == m && (b.atMs < r.atMs || (b.atMs == r.atMs && b.logId < r.logId)))
    {
      FinalIsTold(r, rules);
      assert r in ValidOf(s, c, rules);
    }
  }

  lemma SecondIsTold(s: set<RunRow>, c: ComboKey, rules: Rules, b: RunRow, st: Standing)
    requires SecondIs(st, ValidOf(s, c, rules) - {b}, rules)
    ensures IsSecond(s, c, rules, b, st.secondMs)
  {
    var others := ValidOf(s, c, rules) - {b};
    forall r ensures r in others <==> RunOf(s, c, rules, r) && r != b { FinalIsTold(r, rules); }
    if others != {} {
      var x :| IsFastest(others, x, rules) && st.secondMs == Some(FinalMs(x, rules));
      FinalIsTold(x, rules);
      assert RunOf(s, c, rules, x);
      forall r, m | RunOf(s, c, rules, r) && r != b && TakesMs(r, rules, m) ensures FinalMs(x, rules) <= m { FinalIsTold(r, rules); }
    } else {
      forall r | RunOf(s, c, rules, r) ensures r == b { assert r !in others; }
    }
  }

  /** What the comparison of two combinations looks at. */
  datatype Line = Line(best: int, second: Option<int>, at: int, ev: bool, cc: int, combo: ComboKey)

  ghost predicate IsLine(s: set<RunRow>, meta: map<ComboKey, ComboMeta>, rules: Rules, l: Line) {
    && (exists b :: IsBest(s, l.combo, rules, b, l.best) && l.at == b.atMs && IsSecond(s, l.combo, rules, b, l.second))
    && (if l.combo in meta then l.ev == meta[l.combo].isEv && l.cc == meta[l.combo].cc else !l.ev && l.cc == 0)
  }

  predicate SecondAhead(a: Option<int>, b: Option<int>) {
    a.Some? && (b == None || a.value < b.value)
  }

  /** Combustion cars come before electric ones, and the smaller displacement first. */
  predicate CarAhead(a: Line, b: Line) {
    !a.ev && (b.ev || a.cc < b.cc)
  }

  predicate SameCar(a: Line, b: Line) {
    a.ev == b.ev && (a.ev || a.cc == b.cc)
  }

  predicate MomentAhead(a: Line, b: Line) {
    a.at < b.at || (a.at == b.at && (a.combo.driver < b.combo.driver || (a.combo.driver == b.combo.driver && a.combo.vehicle < b.combo.vehicle)))
  }

  /** By best time; then by second time, one who has none last; then by car; then by the moment of
      the best run; then by driver and vehicle. */
  predicate LineAhead(a: Line, b: Line) {
    a.best < b.best || (a.best == b.best && TieAhead(a, b))
  }

  predicate TieAhead(a: Line, b: Line) {
    SecondAhead(a.second, b.second) || (a.second == b.second && (CarAhead(a, b) || (SameCar(a, b) && MomentAhead(a, b))))
  }

  lemma BestUnique(s: set<RunRow>, c: ComboKey, rules: Rules, a: RunRow, ms: int, b: RunRow, ns: int)
    requires IsBest(s, c, rules, a, ms) && IsBest(s, c, rules, b, ns)
    ensures a == b && ms == ns
  {
    FinalIsTold(a, rules);
    FinalIsTold(b, rules);
  }

  lemma SecondUnique(s: set<RunRow>, c: ComboKey, rules: Rules, b: RunRow, x: Option<int>, y: Option<int>)
    requires IsSecond(s, c, rules, b, x) && IsSecond(s, c, rules, b, y)
    ensures x == y
  {
    if x.Some? && y.Some? {
      var p :| RunOf(s, c, rules, p) && p != b && TakesMs(p, rules, x.value);
      var q :| RunOf(s, c, rules, q) && q != b && TakesMs(q, rules, y.value);
    }
  }

  /** The row of a combination that has such a line. */
  lemma RowOfLine(s: set<RunRow>, meta: map<ComboKey, ComboMeta>, rules: Rules, out: seq<Standing>, l: Line) returns (st: Standing)
    requires DistinctIds(s) && IsRanking(s, meta, rules, 0, out) && IsLine(s, meta, rules, l)
    ensures st in out && st.combo == l.combo && Shown(st) && !st.invalid
    ensures st.bestMs == Some(l.best) && st.secondMs == l.second && st.bestAtMs == l.at
    ensures MetaOf(meta, l.combo) == ComboMeta(l.cc, l.ev)
  {
    var b :| IsBest(s, l.combo, rules, b, l.best) && l.at == b.atMs && IsSecond(s, l.combo, rules, b, l.second);
    assert HasRun(s, l.combo);
    st := RowExists(s, meta, rules, out, l.combo);
    var i :| 0 <= i < |out| && out[i] == st;
    BestAndSecondAreTold(s, meta, rules, out, i);
    var x :| st.bestMs.Some? && IsBest(s, l.combo, rules, x, st.bestMs.value) && st.bestAtMs == x.atMs && IsSecond(s, l.combo, rules, x, st.secondMs);
    BestUnique(s, l.combo, rules, b, l.best, x, st.bestMs.value);
    SecondUnique(s, l.combo, rules, b, l.second, st.secondMs);
  }

  /** In the listing of all heats, of two combinations that each have a run that is not out, the one
      is before the other exactly when its line is ahead. */
  lemma OrderIsTold(s: set<RunRow>, meta: map<ComboKey, ComboMeta>, rules: Rules, out: seq<Standing>, a: Line, b: Line)
    requires DistinctIds(s) && IsRanking(s, meta, rules, 0, out)
    requires IsLine(s, meta, rules, a) && IsLine(s, meta, rules, b) && a.combo != b.combo
    ensures Ahead(out, a.combo, b.combo) <==> LineAhead(a, b)
  {
    var x := RowOfLine(s, meta, rules, out, a);
    var y := RowOfLine(s, meta, rules, out, b);
    AheadIsLess(s, meta, rules, out, x, y);
  }

  /** The only run of its combination that is not out. */
  predicate OnlyRun(s: set<RunRow>, rules: Rules, r: RunRow) {
    RunOf(s, r.combo, rules, r) && forall x :: x in s && x.combo == r.combo && x != r ==> IsOut(x, rules)
  }

  /** Of two combinations with one counting run each, in add mode the smaller raw time plus penalties
      is ahead, and in any other mode the smaller raw time. */
  lemma OneRunEach(s: set<RunRow>, meta: map<ComboKey, ComboMeta>, rules: Rules, out: seq<Standing>, x: RunRow, y: RunRow)
    requires DistinctIds(s) && IsRanking(s, meta, rules, 0, out)
    requires OnlyRun(s, rules, x) && OnlyRun(s, rules, y) && x.combo != y.combo
    ensures rules.mode == Add && x.rawMs + x.pt * rules.penaltyMs < y.rawMs + y.pt * rules.penaltyMs ==> Ahead(out, x.combo, y.combo)
    ensures rules.mode != Add && x.rawMs < y.rawMs ==> Ahead(out, x.combo, y.combo)
  {
    var a := LineOfOnly(s, meta, rules, x);
    var b := LineOfOnly(s, meta, rules, y);
    OrderIsTold(s, meta, rules, out, a, b);
  }

  lemma LineOfOnly(s: set<RunRow>, meta: map<ComboKey, ComboMeta>, rules: Rules, r: RunRow) returns (l: Line)
    requires OnlyRun(s, rules, r)
    ensures IsLine(s, meta, rules, l) && l.combo == r.combo && TakesMs(r, rules, l.best) && l.second == None
  {
    FinalIsTold(r, rules);
    var m := if r.combo in meta then meta[r.combo] else ComboMeta(0, false);
    l := Line(FinalMs(r, rules), None, r.atMs, m.isEv, m.cc, r.combo);
    assert IsBest(s, r.combo, rules, r, l.best) && IsSecond(s, r.combo, rules, r, None);
  }

  // ---------------------------------------------------------------- one heat

  /** The run's number among the runs of its combination, by moment and then log id. */
  predicate IsHeat(s: set<RunRow>, r: RunRow, heat: int) {
    |set x | x in s && x.combo == r.combo && (x.atMs < r.atMs || (x.atMs == r.atMs && x.logId < r.logId))| == heat - 1
  }

  lemma HeatIsTold(s: set<RunRow>, r: RunRow, heat: int)
    ensures IsHeat(s, r, heat) <==> HeatOf(s, r) == heat
  {
    assert (set x | x in s && x.combo == r.combo && (x.atMs < r.atMs || (x.atMs == r.atMs && x.logId < r.logId))) == EarlierIn(s, r);
  }

  /** In the listing of one heat, a combination's time is that of its run of that heat, and it is in
      the trailing group exactly when it has none that is not out. */
  lemma HeatRowIsTold(s: set<RunRow>, meta: map<ComboKey, ComboMeta>, rules: Rules, heat: int, out: seq<Standing>, i: int)
    requires DistinctIds(s) && heat > 0 && IsRanking(s, meta, rules, heat, out) && 0 <= i < |out|
    ensures var st := out[i]; var c := st.combo;
            && st.secondMs == None
            && (st.invalid <==> forall r :: RunOf(s, c, rules, r) ==> !IsHeat(s, r, heat))
            && (!st.invalid ==> exists r :: RunOf(s, c, rules, r) && IsHeat(s, r, heat) && st.bestMs.Some?
                                            && TakesMs(r, rules, st.bestMs.value) && st.bestAtMs == r.atMs && st.bestLogId == Some(r.logId))
  {
    var st := out[i];
    assert IsStanding(st, s, rules, heat);
    forall r ensures RunOf(s, st.combo, rules, r) && IsHeat(s, r, heat) <==> r in Of(s, st.combo) && HeatOf(s, r) == heat && Counts(r, rules) {
      FinalIsTold(r, rules);
      HeatIsTold(s, r, heat);
    }
    if r :| r in Of(s, st.combo) && HeatOf(s, r) == heat && Counts(r, rules) {
      var x :| x in Of(s, st.combo) && HeatOf(s, x) == heat && Counts(x, rules) && BestIs(st, x, rules);
      FinalIsTold(x, rules);
      assert RunOf(s, st.combo, rules, x) && IsHeat(s, x, heat);
    }
  }

  // ---------------------------------------------------------------- rank in filter

  /** The run passes the filters: its combination is known and has every label, id and heat asked for. */
  ghost predicate Passes(s: set<RunRow>, attrs: map<ComboKey, FR.Attrs>, f: FR.Filters, r: RunRow) {
    && r.combo in attrs
    && (f.driverClass == "" || f.driverClass == attrs[r.combo].driverClass)
    && (f.drivetrain == "" || f.drivetrain == attrs[r.combo].drivetrain)
    && (f.disp == "" || f.disp == attrs[r.combo].disp)
    && (f.driver == None || f.driver == Some(r.combo.driver))
    && (f.vehicle == None || f.vehicle == Some(r.combo.vehicle))
    && (f.heat.Some? ==> IsHeat(s, r, f.heat.value))
  }

  /** The runs counted ahead of a time are those that pass, are not out and take less. */
  lemma FasterIsTold(s: set<RunRow>, attrs: map<ComboKey, FR.Attrs>, f: FR.Filters, rules: Rules, ms: int, r: RunRow)
    ensures r in FR.FasterThan(s, attrs, f, rules, ms) <==>
            r in s && Passes(s, attrs, f, r) && !IsOut(r, rules) && TakesLess(r, rules, ms)
  {
    FinalIsTold(r, rules);
    assert TakesLess(r, rules, ms) <==> FinalMs(r, rules) < ms;
    FiltersAreTold(s, attrs, f, r);
  }

  ghost predicate TakesLess(r: RunRow, rules: Rules, ms: int) {
    exists m :: TakesMs(r, rules, m) && m < ms
  }

  lemma FiltersAreTold(s: set<RunRow>, attrs: map<ComboKey, FR.Attrs>, f: FR.Filters, r: RunRow)
    ensures Passes(s, attrs, f, r) <==> FR.ComboMatches(attrs, f, r.combo) && (f.heat.Some? ==> HeatOf(s, r) == f.heat.value)
  {
    if f.heat.Some? { HeatIsTold(s, r, f.heat.value); }
  }

  /** rank_in_filter: none for a run that is out, and otherwise one more than the number of runs that
      pass the filters, are not out and take less. */
  lemma RankIsTold(runs: seq<RunRow>, attrs: map<ComboKey, FR.Attrs>, f: FR.Filters, rules: Rules, mine: seq<RunRow>,
                   ranks: seq<Option<int>>, i: int, ms: int, faster: set<RunRow>)
    requires |ranks| == |mine| && 0 <= i < |mine|
    requires ranks[i] == if Counts(mine[i], rules)
                         then Some(|FR.FasterThan(SetOf(runs), attrs, f, rules, FinalMs(mine[i], rules))| + 1) else None
    requires TakesMs(mine[i], rules, ms)
    requires forall r :: r in faster <==>
               r in runs && Passes(SetOf(runs), attrs, f, r) && !IsOut(r, rules) && TakesLess(r, rules, ms)
    ensures ranks[i] == if IsOut(mine[i], rules) then None else Some(|faster| + 1)
  {
    FinalIsTold(mine[i], rules);
    forall r ensures r in faster <==> r in FR.FasterThan(SetOf(runs), attrs, f, rules, ms) {
      FasterIsTold(SetOf(runs), attrs, f, rules, ms, r);
    }
    assert faster == FR.FasterThan(SetOf(runs), attrs, f, rules, ms);
  }
}
