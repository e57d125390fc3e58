/** How a ranking changes when one run is added (internal/domain/rank.go, heat = 0). */
module RankMonotone {
  import opened Common
  import opened Sorting
  import opened Heat
  import opened Rank

  /** Combination `c` is listed before combination `d`. */
  ghost predicate Ahead(out: seq<Standing>, c: ComboKey, d: ComboKey) {
    exists i, j :: 0 <= i < j < |out| && out[i].combo == c && out[j].combo == d
  }

  /** The standing of a listed combination. */
  ghost predicate RowOf(out: seq<Standing>, c: ComboKey, st: Standing) {
    st in out && st.combo == c
  }

  lemma AheadIsLess(s: set<RunRow>, meta: map<ComboKey, ComboMeta>, rules: Rules, out: seq<Standing>, a: Standing, b: Standing)
    requires DistinctIds(s) && IsRanking(s, meta, rules, 0, out)
    requires a in out && b in out && a.combo != b.combo
    ensures Shown(a) && Shown(b) && (Ahead(out, a.combo, b.combo) <==> LessStanding(a, b, meta))
  {
    var i :| 0 <= i < |out| && out[i] == a;
    var j :| 0 <= j < |out| && out[j] == b;
    LessIsStrictTotal(a, b, b, meta);
    if Ahead(out, a.combo, b.combo) {
      var k, l :| 0 <= k < l < |out| && out[k].combo == a.combo && out[l].combo == b.combo;
      StandingUnique(out[k], a, s, rules, 0);
      StandingUnique(out[l], b, s, rules, 0);
      assert LessStanding(out[k], out[l], meta);
    }
    if LessStanding(a, b, meta) {
      assert i < j;
    }
  }

  lemma RowExists(s: set<RunRow>, meta: map<ComboKey, ComboMeta>, rules: Rules, out: seq<Standing>, c: ComboKey) returns (st: Standing)
    requires IsRanking(s, meta, rules, 0, out) && HasRun(s, c)
    ensures RowOf(out, c, st) && Shown(st) && IsStanding(st, s, rules, 0)
  {
    assert HasStanding(out, c);
    var i :| 0 <= i < |out| && out[i].combo == c;
    st := out[i];
  }

  lemma AheadHasRuns(s: set<RunRow>, meta: map<ComboKey, ComboMeta>, rules: Rules, out: seq<Standing>, c: ComboKey, d: ComboKey)
    requires DistinctIds(s) && IsRanking(s, meta, rules, 0, out) && Ahead(out, c, d)
    ensures HasRun(s, c) && HasRun(s, d) && c != d
  {
    var i, j :| 0 <= i < j < |out| && out[i].combo == c && out[j].combo == d;
    RankingShape(s, meta, rules, 0, out, i, j);
    assert HasStanding(out, c) && HasStanding(out, d);
  }

  /** A combination without the new run keeps its standing. */
  lemma OthersKeepStanding(s: set<RunRow>, x: RunRow, rules: Rules, a: Standing, b: Standing)
    requires DistinctIds(s + {x}) && a.combo == b.combo != x.combo
    requires IsStanding(a, s, rules, 0) && IsStanding(b, s + {x}, rules, 0)
    ensures a == b
  {
    assert Of(s + {x}, a.combo) == Of(s, a.combo);
    assert ValidOf(s + {x}, a.combo, rules) == ValidOf(s, a.combo, rules);
    assert IsStanding(a, s + {x}, rules, 0);
    StandingUnique(a, b, s + {x}, rules, 0);
  }

  lemma FastestWith(rs: set<RunRow>, b: RunRow, x: RunRow, rules: Rules)
    requires DistinctIds(rs + {x}) && x !in rs && IsFastest(rs, b, rules)
    ensures IsFastest(rs + {x}, if Faster(x, b, rules) then x else b, rules)
  {
    assert b != x && b.logId != x.logId;
    assert b in rs + {x} && x in rs + {x};
    forall y | y in rs + {x} && y != (if Faster(x, b, rules) then x else b)
      ensures Faster(if Faster(x, b, rules) then x else b, y, rules)
    {
      if y != x && y != b { assert y in rs && Faster(b, y, rules); }
    }
  }

  /** The second best only improves when a run is added. */
  lemma SecondImproves(a: Standing, b: Standing, others: set<RunRow>, x: RunRow, rules: Rules)
    requires DistinctIds(others + {x}) && x !in others
    requires SecondIs(a, others, rules) && SecondIs(b, others + {x}, rules)
    ensures b.secondMs.Some? && (a.secondMs.Some? ==> b.secondMs.value <= a.secondMs.value)
  {
    assert x in others + {x};
    var q :| IsFastest(others + {x}, q, rules) && b.secondMs == Some(FinalMs(q, rules));
    if others != {} {
      var p :| IsFastest(others, p, rules) && a.secondMs == Some(FinalMs(p, rules));
      FastestWith(others, p, x, rules);
      FastestUnique(others + {x}, q, if Faster(x, p, rules) then x else p, rules);
    }
  }

  /** `b` compares no worse than `a` at every stage of the comparison. */
  ghost predicate Improves(a: Standing, b: Standing) {
    && !b.invalid && b.bestMs.Some?
    && (!a.invalid ==> a.bestMs.Some? && b.bestMs.value <= a.bestMs.value)
    && (!a.invalid && a.bestMs == b.bestMs ==>
          && (a.secondMs.Some? ==> b.secondMs.Some? && b.secondMs.value <= a.secondMs.value)
          && (a.secondMs == b.secondMs ==> b.bestAtMs <= a.bestAtMs))
  }

  /** The combination that gets a valid run does not sort after where it sorted before. */
  lemma StandingNotWorse(s: set<RunRow>, x: RunRow, meta: map<ComboKey, ComboMeta>, rules: Rules, a: Standing, b: Standing)
    requires DistinctIds(s + {x}) && x !in s && Counts(x, rules)
    requires Shown(a) && Shown(b) && a.combo == b.combo == x.combo
    requires IsStanding(a, s, rules, 0) && IsStanding(b, s + {x}, rules, 0)
    ensures !LessStanding(a, b, meta)
  {
    ValidRunImproves(s, x, rules, a, b);
  }

  lemma ValidRunImproves(s: set<RunRow>, x: RunRow, rules: Rules, a: Standing, b: Standing)
    requires DistinctIds(s + {x}) && x !in s && Counts(x, rules)
    requires Shown(a) && Shown(b) && a.combo == b.combo == x.combo
    requires IsStanding(a, s, rules, 0) && IsStanding(b, s + {x}, rules, 0)
    ensures Improves(a, b)
  {
    var valid := ValidOf(s, x.combo, rules);
    assert ValidOf(s + {x}, x.combo, rules) == valid + {x};
    assert x in valid + {x};
    var q :| IsFastest(valid + {x}, q, rules) && BestIs(b, q, rules) && SecondIs(b, (valid + {x}) - {q}, rules);
    if valid != {} {
      var p :| IsFastest(valid, p, rules) && BestIs(a, p, rules) && SecondIs(a, valid - {p}, rules);
      FastestWith(valid, p, x, rules);
      FastestUnique(valid + {x}, q, if Faster(x, p, rules) then x else p, rules);
      if Faster(x, p, rules) { NewFastest(valid, x, p, rules, a, b); } else { OldFastest(valid, x, p, rules, a, b); }
    }
  }

  lemma NewFastest(valid: set<RunRow>, x: RunRow, p: RunRow, rules: Rules, a: Standing, b: Standing)
    requires x !in valid && IsFastest(valid, p, rules) && Faster(x, p, rules)
    requires BestIs(a, p, rules) && SecondIs(a, valid - {p}, rules)
    requires BestIs(b, x, rules) && SecondIs(b, (valid + {x}) - {x}, rules)
    ensures Improves(a, b)
  {
    assert (valid + {x}) - {x} == valid;
    var z :| IsFastest(valid, z, rules) && b.secondMs == Some(FinalMs(z, rules));
    FastestUnique(valid, z, p, rules);
    SecondAtLeastBest(a, valid, p, rules);
  }

  lemma OldFastest(valid: set<RunRow>, x: RunRow, p: RunRow, rules: Rules, a: Standing, b: Standing)
    requires DistinctIds(valid + {x}) && x !in valid && IsFastest(valid, p, rules)
    requires BestIs(a, p, rules) && SecondIs(a, valid - {p}, rules)
    requires BestIs(b, p, rules) && SecondIs(b, (valid + {x}) - {p}, rules)
    ensures Improves(a, b)
  {
    assert (valid + {x}) - {p} == (valid - {p}) + {x};
    assert valid - {p} + {x} <= valid + {x};
    SecondImproves(a, b, valid - {p}, x, rules);
  }

  lemma SecondAtLeastBest(a: Standing, valid: set<RunRow>, p: RunRow, rules: Rules)
    requires IsFastest(valid, p, rules) && SecondIs(a, valid - {p}, rules)
    ensures a.secondMs.Some? ==> FinalMs(p, rules) <= a.secondMs.value
  {
    if valid - {p} != {} {
      var z :| IsFastest(valid - {p}, z, rules) && a.secondMs == Some(FinalMs(z, rules));
      assert z in valid && z != p;
    }
  }

  lemma NotWorseKeepsLead(a: Standing, b: Standing, d: Standing, meta: map<ComboKey, ComboMeta>)
    requires Shown(a) && Shown(b) && Shown(d) && a.combo == b.combo
    requires !LessStanding(a, b, meta) && LessStanding(a, d, meta)
    ensures LessStanding(b, d, meta)
  {
    var m := MetaOf(meta, a.combo);
    LessIsLex(a, b, meta); LessIsLex(b, a, meta); LessIsLex(a, d, meta); LessIsLex(b, d, meta);
    LexTotal(StandingKey(b, m), StandingKey(a, m));
    if Lex(StandingKey(b, m), StandingKey(a, m)) {
      LexTransitive(StandingKey(b, m), StandingKey(a, m), StandingKey(d, MetaOf(meta, d.combo)));
    }
  }

  /** One more valid run never moves its combination behind one it was ahead of, and changes
      the order of no other two combinations. */
  lemma ValidRunNeverHurts(s: set<RunRow>, x: RunRow, meta: map<ComboKey, ComboMeta>, rules: Rules,
                           out: seq<Standing>, out': seq<Standing>, c: ComboKey, d: ComboKey)
    requires DistinctIds(s + {x}) && x !in s && Counts(x, rules)
    requires IsRanking(s, meta, rules, 0, out) && IsRanking(s + {x}, meta, rules, 0, out')
    ensures c == x.combo && Ahead(out, c, d) ==> Ahead(out', c, d)
    ensures c != x.combo && d != x.combo ==> (Ahead(out, c, d) <==> Ahead(out', c, d))
  {
    assert DistinctIds(s);
    if c == x.combo && Ahead(out, c, d) {
      AheadHasRuns(s, meta, rules, out, c, d);
      RunsStay(s, x, c); RunsStay(s, x, d);
      var a := RowExists(s, meta, rules, out, c);
      var b := RowExists(s + {x}, meta, rules, out', c);
      var p := RowExists(s, meta, rules, out, d);
      var q := RowExists(s + {x}, meta, rules, out', d);
      OthersKeepStanding(s, x, rules, p, q);
      StandingNotWorse(s, x, meta, rules, a, b);
      AheadIsLess(s, meta, rules, out, a, p);
      NotWorseKeepsLead(a, b, p, meta);
      AheadIsLess(s + {x}, meta, rules, out', b, q);
    }
    if c != x.combo && d != x.combo {
      OthersKeepOrder(s, x, meta, rules, out, out', c, d);
    }
  }

  lemma RunsStay(s: set<RunRow>, x: RunRow, c: ComboKey)
    ensures HasRun(s, c) ==> HasRun(s + {x}, c)
    ensures c != x.combo && HasRun(s + {x}, c) ==> HasRun(s, c)
  {
    if HasRun(s, c) { var r :| r in s && r.combo == c; assert r in s + {x}; }
    if HasRun(s + {x}, c) && c != x.combo { var r :| r in s + {x} && r.combo == c; assert r in s; }
  }

  lemma OthersKeepOrder(s: set<RunRow>, x: RunRow, meta: map<ComboKey, ComboMeta>, rules: Rules,
                        out: seq<Standing>, out': seq<Standing>, c: ComboKey, d: ComboKey)
    requires DistinctIds(s) && DistinctIds(s + {x}) && c != x.combo && d != x.combo
    requires IsRanking(s, meta, rules, 0, out) && IsRanking(s + {x}, meta, rules, 0, out')
    ensures Ahead(out, c, d) <==> Ahead(out', c, d)
  {
    RunsStay(s, x, c); RunsStay(s, x, d);
    if Ahead(out, c, d) { AheadHasRuns(s, meta, rules, out, c, d); }
    if Ahead(out', c, d) { AheadHasRuns(s + {x}, meta, rules, out', c, d); }
    if HasRun(s, c) && HasRun(s, d) && c != d {
      var a := RowExists(s, meta, rules, out, c);
      var b := RowExists(s + {x}, meta, rules, out', c);
      var p := RowExists(s, meta, rules, out, d);
      var q := RowExists(s + {x}, meta, rules, out', d);
      OthersKeepStanding(s, x, rules, a, b);
      OthersKeepStanding(s, x, rules, p, q);
      AheadIsLess(s, meta, rules, out, a, p);
      AheadIsLess(s + {x}, meta, rules, out', b, q);
    }
  }

  /** A run that does not count, added to a combination that is already ranked, changes the
      order of no two combinations at all. */
  lemma InvalidRunChangesNoOrder(s: set<RunRow>, x: RunRow, meta: map<ComboKey, ComboMeta>, rules: Rules,
                                 out: seq<Standing>, out': seq<Standing>, c: ComboKey, d: ComboKey)
    requires DistinctIds(s + {x}) && x !in s && !Counts(x, rules) && HasRun(s, x.combo)
    requires IsRanking(s, meta, rules, 0, out) && IsRanking(s + {x}, meta, rules, 0, out')
    ensures Ahead(out, c, d) <==> Ahead(out', c, d)
  {
    assert DistinctIds(s);
    RunsStay(s, x, c); RunsStay(s, x, d);
    if Ahead(out, c, d) { AheadHasRuns(s, meta, rules, out, c, d); }
    if Ahead(out', c, d) { AheadHasRuns(s + {x}, meta, rules, out', c, d); }
    if HasRun(s, c) && HasRun(s, d) && c != d {
      var a := RowExists(s, meta, rules, out, c);
      var b := RowExists(s + {x}, meta, rules, out', c);
      var p := RowExists(s, meta, rules, out, d);
      var q := RowExists(s + {x}, meta, rules, out', d);
      CountsDoNotRank(s, x, meta, rules, a, b, p, q);
      AheadIsLess(s, meta, rules, out, a, p);
      AheadIsLess(s + {x}, meta, rules, out', b, q);
    }
  }

  lemma CountsDoNotRank(s: set<RunRow>, x: RunRow, meta: map<ComboKey, ComboMeta>, rules: Rules,
                        a: Standing, b: Standing, p: Standing, q: Standing)
    requires DistinctIds(s + {x}) && !Counts(x, rules) && a.combo == b.combo && p.combo == q.combo
    requires Shown(a) && Shown(b) && Shown(p) && Shown(q)
    requires IsStanding(a, s, rules, 0) && IsStanding(b, s + {x}, rules, 0)
    requires IsStanding(p, s, rules, 0) && IsStanding(q, s + {x}, rules, 0)
    ensures LessStanding(a, p, meta) <==> LessStanding(b, q, meta)
  {
    SameBest(s, x, rules, a, b);
    SameBest(s, x, rules, p, q);
  }

  lemma SameBest(s: set<RunRow>, x: RunRow, rules: Rules, a: Standing, b: Standing)
    requires DistinctIds(s + {x}) && !Counts(x, rules) && a.combo == b.combo
    requires IsStanding(a, s, rules, 0) && IsStanding(b, s + {x}, rules, 0)
    ensures b == a.(runs := b.runs, validRuns := b.validRuns, ptTotal := b.ptTotal)
  {
    assert ValidOf(s + {x}, a.combo, rules) == ValidOf(s, a.combo, rules);
    var a' := a.(runs := b.runs, validRuns := b.validRuns, ptTotal := b.ptTotal);
    assert OverallBest(a', s + {x}, rules) by {
      var valid := ValidOf(s, a.combo, rules);
      if valid != {} {
        var p :| IsFastest(valid, p, rules) && BestIs(a, p, rules) && SecondIs(a, valid - {p}, rules);
        assert BestIs(a', p, rules) && SecondIs(a', valid - {p}, rules);
      }
    }
    StandingUnique(a', b, s + {x}, rules, 0);
  }
}
