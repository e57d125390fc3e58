/** Runs, final times and heat numbers (internal/domain: rank.go, final.go, heat.go). */
module Heat {
  import opened Sorting

  datatype ComboKey = ComboKey(driver: int, vehicle: int)

  datatype RunRow = RunRow(logId: int, combo: ComboKey, rawMs: int, pt: int, mc: bool, atMs: int)

  datatype PtMode = Add | Invalidate | OtherMode

  datatype Rules = Rules(mode: PtMode, penaltyMs: int)

  /** FinalMS: the time that counts, and whether the run counts at all. */
  function FinalMs(r: RunRow, rules: Rules): (ms: int) {
    if rules.mode == Add then r.rawMs + r.pt * rules.penaltyMs else r.rawMs
  }

  predicate Counts(r: RunRow, rules: Rules) {
    !(r.mc || (rules.mode == Invalidate && r.pt > 0))
  }

  /** No two rows share a log id. */
  ghost predicate DistinctIds(s: set<RunRow>) {
    forall a, b :: a in s && b in s && a.logId == b.logId ==> a == b
  }

  predicate DistinctRows(runs: seq<RunRow>) {
    forall i, j :: 0 <= i < j < |runs| ==> runs[i].logId != runs[j].logId
  }

  function SetOf(runs: seq<RunRow>): (s: set<RunRow>) {
    set r | r in runs
  }

  lemma DistinctRowsSet(runs: seq<RunRow>)
    requires DistinctRows(runs)
    ensures DistinctIds(SetOf(runs))
  {
  }

  function Of(s: set<RunRow>, c: ComboKey): (rs: set<RunRow>) {
    set r | r in s && r.combo == c
  }

  // ---------------------------------------------------------------- heat numbers

  function HeatKey(r: RunRow): (k: seq<int>) {
    [r.atMs, r.logId]
  }

  /** The order heats are run in: timestamp, then log id. */
  predicate Earlier(a: RunRow, b: RunRow) {
    if a.atMs != b.atMs then a.atMs < b.atMs else a.logId < b.logId
  }

  lemma EarlierIsLex(a: RunRow, b: RunRow)
    ensures Earlier(a, b) <==> Lex(HeatKey(a), HeatKey(b))
  {
    var x, y := HeatKey(a)[1..], HeatKey(b)[1..];
    assert Lex(x, y) <==> if x[0] != y[0] then x[0] < y[0] else Lex(x[1..], y[1..]);
    assert x[1..] == [];
  }

  function EarlierIn(s: set<RunRow>, r: RunRow): (e: set<RunRow>) {
    set x | x in s && x.combo == r.combo && Earlier(x, r)
  }

  /** One more than the number of earlier runs of the same combination. */
  function HeatOf(s: set<RunRow>, r: RunRow): (h: int)
    ensures h >= 1
  {
    |EarlierIn(s, r)| + 1
  }

  ghost predicate IsEarliest(s: set<RunRow>, m: RunRow) {
    m in s && forall x :: x in s && x != m ==> Earlier(m, x)
  }

  lemma {:induction false} EarliestExists(s: set<RunRow>)
    requires DistinctIds(s) && s != {}
    ensures exists m :: IsEarliest(s, m)
    decreases |s|
  {
    HasRow(s);
    var a :| a in s;
    if s == {a} {
      assert IsEarliest(s, a);
    } else {
      assert s - {a} != {};
      EarliestExists(s - {a});
      var m :| IsEarliest(s - {a}, m);
      EarlierOfTwo(s, a, m);
    }
  }

  lemma EarlierOfTwo(s: set<RunRow>, a: RunRow, m: RunRow)
    requires DistinctIds(s) && a in s && IsEarliest(s - {a}, m)
    ensures IsEarliest(s, if Earlier(a, m) then a else m)
  {
    var best := if Earlier(a, m) then a else m;
    forall x | x in s && x != best ensures Earlier(best, x) {
      if x != a && x != m { assert x in s - {a} && Earlier(m, x); }
    }
  }

  lemma HasRow(s: set<RunRow>)
    requires s != {}
    ensures exists x :: x in s
  {
    assert (forall x :: x !in s) ==> s == {};
  }

  /** Any set of runs written out in heat order. */
  lemma {:induction false} InOrder(s: set<RunRow>) returns (xs: seq<RunRow>)
    requires DistinctIds(s)
    ensures Ascending(HeatKey, xs) && |xs| == |s|
    ensures forall x :: x in xs <==> x in s
    decreases |s|
  {
    if s == {} {
      xs := [];
    } else {
      EarliestExists(s);
      var m :| IsEarliest(s, m);
      var rest := InOrder(s - {m});
      xs := [m] + rest;
      forall i | 0 <= i < |rest| ensures Lex(HeatKey(m), HeatKey(rest[i])) {
        var x := rest[i];
        assert x in rest && x in s - {m};
        EarlierIsLex(m, x);
      }
      PrependAscending(m, rest);
    }
  }

  lemma PrependAscending(m: RunRow, rest: seq<RunRow>)
    requires Ascending(HeatKey, rest)
    requires forall i :: 0 <= i < |rest| ==> Lex(HeatKey(m), HeatKey(rest[i]))
    ensures Ascending(HeatKey, [m] + rest)
  {
    var xs := [m] + rest;
    assert forall i :: 0 < i < |xs| ==> xs[i] == rest[i - 1];
  }

  /** In the list of a combination's runs in heat order, the run at index i has heat i + 1. */
  lemma IndexIsHeat(s: set<RunRow>, c: ComboKey, xs: seq<RunRow>, i: nat)
    requires Ascending(HeatKey, xs) && i < |xs|
    requires forall x :: x in xs <==> x in Of(s, c)
    ensures HeatOf(s, xs[i]) == i + 1
  {
    var r := xs[i];
    assert r in xs;
    assert EarlierIn(s, r) == SetOf(xs[..i]) by {
      forall x ensures x in EarlierIn(s, r) <==> x in xs[..i] {
        EarlierIsLex(x, r);
        if x in EarlierIn(s, r) {
          assert x in xs;
          var k :| 0 <= k < |xs| && xs[k] == x;
          if k >= i { NotBelow(xs, i, k); }
          assert x == xs[..i][k];
        }
        if x in xs[..i] {
          var k :| 0 <= k < i && xs[..i][k] == x;
          assert xs[k] == x && x in xs;
        }
      }
    }
    PrefixSize(xs, i);
  }

  lemma NotBelow(xs: seq<RunRow>, i: nat, k: nat)
    requires Ascending(HeatKey, xs) && i <= k < |xs|
    ensures !Lex(HeatKey(xs[k]), HeatKey(xs[i]))
  {
    if i < k { LexAsymmetric(HeatKey(xs[i]), HeatKey(xs[k])); } else { LexIrreflexive(HeatKey(xs[i])); }
  }

  lemma PrefixSize(xs: seq<RunRow>, i: nat)
    requires Ascending(HeatKey, xs) && i <= |xs|
    ensures |SetOf(xs[..i])| == i
  {
    forall k, l | 0 <= k < l < i ensures xs[..i][k] != xs[..i][l] { LexIrreflexive(HeatKey(xs[k])); }
    SizeOfDistinct(xs[..i]);
  }

  lemma {:induction false} SizeOfDistinct(rs: seq<RunRow>)
    requires forall i, j :: 0 <= i < j < |rs| ==> rs[i] != rs[j]
    ensures |SetOf(rs)| == |rs|
  {
    if rs == [] {
      assert SetOf(rs) == {};
    } else {
      var front, last := rs[..|rs| - 1], rs[|rs| - 1];
      SizeOfDistinct(front);
      assert rs == front + [last];
      assert last !in front;
      assert SetOf(rs) == SetOf(front) + {last};
    }
  }

  ghost predicate HasHeat(s: set<RunRow>, c: ComboKey, h: int) {
    exists r :: r in Of(s, c) && HeatOf(s, r) == h
  }

  /** Heat numbers are a bijection from a combination's runs onto 1..n that follows the order
      of (timestamp, log id): no gaps, no ties, misses included. */
  lemma HeatBijection(s: set<RunRow>, c: ComboKey)
    requires DistinctIds(s)
    ensures forall r :: r in Of(s, c) ==> 1 <= HeatOf(s, r) <= |Of(s, c)|
    ensures forall h :: 1 <= h <= |Of(s, c)| ==> HasHeat(s, c, h)
    ensures forall a, b :: a in Of(s, c) && b in Of(s, c) ==>
              (HeatOf(s, a) < HeatOf(s, b) <==> a.atMs < b.atMs || (a.atMs == b.atMs && a.logId < b.logId))
    ensures forall a, b :: a in Of(s, c) && b in Of(s, c) && HeatOf(s, a) == HeatOf(s, b) ==> a == b
  {
    var xs := InOrder(Of(s, c));
    forall i | 0 <= i < |xs| ensures HeatOf(s, xs[i]) == i + 1 { IndexIsHeat(s, c, xs, i); }
    forall r | r in Of(s, c) ensures 1 <= HeatOf(s, r) <= |Of(s, c)| {
      assert r in xs;
      var i :| 0 <= i < |xs| && xs[i] == r;
    }
    forall h | 1 <= h <= |Of(s, c)| ensures HasHeat(s, c, h) {
      var r := xs[h - 1];
      assert r in xs;
    }
    forall a, b | a in Of(s, c) && b in Of(s, c)
      ensures HeatOf(s, a) < HeatOf(s, b) <==> a.atMs < b.atMs || (a.atMs == b.atMs && a.logId < b.logId)
      ensures HeatOf(s, a) == HeatOf(s, b) ==> a == b
    {
      assert a in xs && b in xs;
      var i :| 0 <= i < |xs| && xs[i] == a;
      var j :| 0 <= j < |xs| && xs[j] == b;
      EarlierIsLex(a, b);
      if j <= i { NotBelow(xs, j, i); }
    }
  }

  /** Taking one run away lowers exactly the later heats of its combination by one. */
  lemma RemovalShiftsLaterHeats(s: set<RunRow>, gone: RunRow, r: RunRow)
    requires gone in s && r in s && r != gone
    ensures HeatOf(s - {gone}, r) == HeatOf(s, r) -
              (if gone.combo == r.combo && (gone.atMs < r.atMs || (gone.atMs == r.atMs && gone.logId < r.logId)) then 1 else 0)
  {
    if gone.combo == r.combo && Earlier(gone, r) {
      assert EarlierIn(s, r) == EarlierIn(s - {gone}, r) + {gone};
    } else {
      assert EarlierIn(s, r) == EarlierIn(s - {gone}, r);
    }
  }

  // ---------------------------------------------------------------- HeatNumbers

  /** byCombo: the rows of each combination, in the order they were given. */
  ghost predicate Grouped(runs: seq<RunRow>, byCombo: map<ComboKey, seq<RunRow>>) {
    && (forall c :: c in byCombo ==> DistinctRows(byCombo[c]) && byCombo[c] != [])
    && (forall c :: c in byCombo ==> forall r :: r in byCombo[c] <==> r in Of(SetOf(runs), c))
    && (forall r :: r in runs ==> r.combo in byCombo)
  }

  method GroupByCombo(runs: seq<RunRow>) returns (byCombo: map<ComboKey, seq<RunRow>>)
    requires DistinctRows(runs)
    ensures Grouped(runs, byCombo)
  {
    byCombo := map[];
    var i := 0;
    while i < |runs|
      invariant 0 <= i <= |runs|
      invariant Grouped(runs[..i], byCombo)
    {
      var r := runs[i];
      var earlier := if r.combo in byCombo then byCombo[r.combo] else [];
      GroupStep(runs, i, byCombo);
      byCombo := byCombo[r.combo := earlier + [r]];
      i := i + 1;
    }
    assert runs[..i] == runs;
  }

  lemma GroupStep(runs: seq<RunRow>, i: nat, byCombo: map<ComboKey, seq<RunRow>>)
    requires DistinctRows(runs) && i < |runs| && Grouped(runs[..i], byCombo)
    ensures var r := runs[i];
            Grouped(runs[..i + 1], byCombo[r.combo := (if r.combo in byCombo then byCombo[r.combo] else []) + [r]])
  {
    var r := runs[i];
    var rs := if r.combo in byCombo then byCombo[r.combo] else [];
    assert runs[..i + 1] == runs[..i] + [r];
    forall x ensures x in rs <==> x in Of(SetOf(runs[..i]), r.combo) {
      assert x in Of(SetOf(runs[..i]), r.combo) ==> x in runs[..i];
    }
    forall k | 0 <= k < |rs| ensures rs[k].logId != r.logId {
      var x := rs[k];
      assert x in rs && x in runs[..i];
      var m :| 0 <= m < i && runs[..i][m] == x;
      assert runs[m] == x;
    }
    assert DistinctRows(rs + [r]);
    OfGrows(runs[..i], r);
  }

  lemma OfGrows(front: seq<RunRow>, r: RunRow)
    ensures forall c, x :: x in Of(SetOf(front + [r]), c) <==> x in Of(SetOf(front), c) || (x == r && c == r.combo)
  {
    forall c, x ensures x in Of(SetOf(front + [r]), c) <==> x in Of(SetOf(front), c) || (x == r && c == r.combo) {
      assert x in front + [r] <==> x in front || x == r;
      assert x in SetOf(front + [r]) <==> x in front + [r];
      assert x in SetOf(front) <==> x in front;
    }
  }

  /** HeatNumbers: the map iteration order is arbitrary and the rows come in any order, but the
      number a run gets is HeatOf of the set of runs. */
  method HeatNumbers(runs: seq<RunRow>) returns (result: map<int, int>)
    requires DistinctRows(runs)
    ensures forall r :: r in runs ==> r.logId in result && result[r.logId] == HeatOf(SetOf(runs), r)
    ensures forall id :: id in result ==> IsLogId(runs, id)
  {
    ghost var s := SetOf(runs);
    DistinctRowsSet(runs);
    var byCombo := GroupByCombo(runs);
    result := map[];
    var todo := byCombo.Keys;
    while todo != {}
      invariant todo <= byCombo.Keys
      invariant forall r :: r in runs && r.combo !in todo ==> r.logId in result && result[r.logId] == HeatOf(s, r)
      invariant forall id :: id in result ==> IsLogId(runs, id)
      decreases |todo|
    {
      HasCombo(todo);
      var c :| c in todo;
      ghost var before := result;
      result := NumberCombo(runs, c, byCombo[c], result);
      todo := todo - {c};
    }
  }

  lemma HasCombo(s: set<ComboKey>)
    requires s != {}
    ensures exists x :: x in s
  {
    assert (forall x :: x !in s) ==> s == {};
  }

  /** After i rows of the combination: theirs are written, those of the others stay. */
  ghost predicate Numbered(runs: seq<RunRow>, c: ComboKey, sorted: seq<RunRow>, i: int, result: map<int, int>, out: map<int, int>) {
    && 0 <= i <= |sorted|
    && (forall k :: 0 <= k < i ==> sorted[k].logId in out && out[sorted[k].logId] == HeatOf(SetOf(runs), sorted[k]))
    && (forall r :: r in runs && r.combo != c && r.logId in result ==> r.logId in out && out[r.logId] == result[r.logId])
    && (forall id :: id in out ==> IsLogId(runs, id))
  }

  ghost predicate IsLogId(runs: seq<RunRow>, id: int) {
    exists r :: r in runs && r.logId == id
  }

  lemma NumberStep(runs: seq<RunRow>, c: ComboKey, sorted: seq<RunRow>, i: nat, result: map<int, int>, out: map<int, int>)
    requires DistinctIds(SetOf(runs)) && Ascending(HeatKey, sorted) && i < |sorted|
    requires forall r :: r in sorted <==> r in Of(SetOf(runs), c)
    requires Numbered(runs, c, sorted, i, result, out)
    ensures Numbered(runs, c, sorted, i + 1, result, out[sorted[i].logId := i + 1])
  {
    var s, r := SetOf(runs), sorted[i];
    assert r in sorted && r in s && r in runs;
    IndexIsHeat(s, c, sorted, i);
    forall k | 0 <= k < i ensures sorted[k].logId != r.logId {
      var x := sorted[k];
      assert x in sorted && x in s;
      LexIrreflexive(HeatKey(x));
    }
    forall x | x in runs && x.combo != c ensures x.logId != r.logId { assert x in s; }
    assert IsLogId(runs, r.logId);
  }

  /** The numbers of one combination are written; those of the others stay. */
  method NumberCombo(ghost runs: seq<RunRow>, ghost c: ComboKey, rs: seq<RunRow>, result: map<int, int>) returns (out: map<int, int>)
    requires DistinctRows(runs) && DistinctRows(rs)
    requires forall r :: r in rs <==> r in Of(SetOf(runs), c)
    requires forall id :: id in result ==> IsLogId(runs, id)
    ensures forall r :: r in rs ==> r.logId in out && out[r.logId] == HeatOf(SetOf(runs), r)
    ensures forall r :: r in runs && r.combo != c && r.logId in result ==> r.logId in out && out[r.logId] == result[r.logId]
    ensures forall id :: id in out ==> IsLogId(runs, id)
  {
    DistinctRowsSet(runs);
    forall x, y ensures Earlier(x, y) == Lex(HeatKey(x), HeatKey(y)) { EarlierIsLex(x, y); }
    var sorted := SortSlice(rs, Earlier, HeatKey, 2);
    out := result;
    var i := 0;
    while i < |sorted|
      invariant Numbered(runs, c, sorted, i, result, out)
    {
      NumberStep(runs, c, sorted, i, result, out);
      out := out[sorted[i].logId := i + 1];
      i := i + 1;
    }
    forall r | r in rs ensures r.logId in out && out[r.logId] == HeatOf(SetOf(runs), r) {
      assert r in sorted;
    }
  }
}
