/** Lexicographic keys, and what any comparison sort of distinct keys must return. */
module Sorting {

  /** Strict lexicographic order on lists of integers of one length. */
  predicate Lex(a: seq<int>, b: seq<int>) {
    if a == [] || b == [] then false
    else if a[0] != b[0] then a[0] < b[0]
    else Lex(a[1..], b[1..])
  }

  lemma {:induction false} LexIrreflexive(a: seq<int>)
    ensures !Lex(a, a)
  {
    if a != [] { LexIrreflexive(a[1..]); }
  }

  lemma {:induction false} LexTransitive(a: seq<int>, b: seq<int>, c: seq<int>)
    requires Lex(a, b) && Lex(b, c)
    ensures Lex(a, c)
    decreases |a|
  {
    if a[0] == b[0] == c[0] { LexTransitive(a[1..], b[1..], c[1..]); }
  }

  lemma {:induction false} LexTotal(a: seq<int>, b: seq<int>)
    requires |a| == |b|
    ensures a == b || Lex(a, b) || Lex(b, a)
    decreases |a|
  {
    if a != [] && a[0] == b[0] {
      LexTotal(a[1..], b[1..]);
      assert a == [a[0]] + a[1..] && b == [b[0]] + b[1..];
    }
  }

  lemma LexAsymmetric(a: seq<int>, b: seq<int>)
    requires Lex(a, b)
    ensures !Lex(b, a)
  {
    if Lex(b, a) { LexTransitive(a, b, a); LexIrreflexive(a); }
  }

  /** `xs` is in strictly ascending order of its keys. */
  ghost predicate Ascending<T(!new)>(key: T -> seq<int>, xs: seq<T>) {
    forall i, j :: 0 <= i < j < |xs| ==> Lex(key(xs[i]), key(xs[j]))
  }

  /** There is one ascending list of a given set: however the elements were visited and whatever
      the sort does, the result is the same. */
  lemma {:induction false} AscendingUnique<T(!new)>(key: T -> seq<int>, a: seq<T>, b: seq<T>)
    requires Ascending(key, a) && Ascending(key, b)
    requires forall x :: x in a <==> x in b
    ensures a == b
    decreases |a|
  {
    if a == [] {
      if b != [] { Inhabited(b); }
    } else {
      var x := a[0];
      assert x in a && x in b;
      var y := b[0];
      assert y in b && y in a;
      var i :| 0 <= i < |b| && b[i] == x;
      var j :| 0 <= j < |a| && a[j] == y;
      if i > 0 && j > 0 { LexAsymmetric(key(b[0]), key(b[i])); }
      assert i == 0 || j == 0;
      assert x == y;
      TailMembers(key, a);
      TailMembers(key, b);
      AscendingUnique(key, a[1..], b[1..]);
      assert a == [a[0]] + a[1..] && b == [b[0]] + b[1..];
    }
  }

  lemma Inhabited<T(!new)>(b: seq<T>)
    requires b != []
    ensures exists x :: x in b
  {
    var x := b[0];
    assert x in b;
  }

  lemma TailMembers<T(!new)>(key: T -> seq<int>, a: seq<T>)
    requires Ascending(key, a) && a != []
    ensures Ascending(key, a[1..])
    ensures forall x :: x in a[1..] <==> x in a && x != a[0]
  {
    assert a == [a[0]] + a[1..];
    forall x | x in a[1..] ensures x != a[0] {
      var k :| 0 <= k < |a[1..]| && a[1..][k] == x;
      assert x == a[k + 1];
      LexIrreflexive(key(a[0]));
    }
  }

  /** sort.Slice with a comparison that is the lexicographic order of `key`, on elements with
      distinct keys. Callers may rely only on the postcondition, as with the library sort. */
  method SortSlice<T(!new)>(xs: seq<T>, less: (T, T) -> bool, ghost key: T -> seq<int>, ghost width: nat) returns (ys: seq<T>)
    requires forall x :: x in xs ==> |key(x)| == width
    requires forall x, y :: x in xs && y in xs ==> less(x, y) == Lex(key(x), key(y))
    requires forall i, j :: 0 <= i < j < |xs| ==> key(xs[i]) != key(xs[j])
    ensures Ascending(key, ys) && |ys| == |xs|
    ensures forall x :: x in ys <==> x in xs
  {
    ys := [];
    var n := 0;
    while n < |xs|
      invariant 0 <= n <= |xs| && |ys| == n
      invariant Ascending(key, ys)
      invariant forall x :: x in ys <==> x in xs[..n]
    {
      var x := xs[n];
      assert xs[..n + 1] == xs[..n] + [x];
      var k := 0;
      while k < |ys| && less(ys[k], x)
        invariant 0 <= k <= |ys|
        invariant forall m :: 0 <= m < k ==> Lex(key(ys[m]), key(x))
      {
        assert ys[k] in ys;
        k := k + 1;
      }
      AllDiffer(key, xs, n, ys);
      if k < |ys| {
        var y := ys[k];
        assert y in ys && y in xs;
        LexTotal(key(x), key(y));
      }
      InsertKeepsOrder(key, ys, k, x);
      ys := ys[..k] + [x] + ys[k..];
      n := n + 1;
    }
    assert xs[..n] == xs;
  }

  lemma AllDiffer<T(!new)>(key: T -> seq<int>, xs: seq<T>, n: nat, ys: seq<T>)
    requires n < |xs|
    requires forall i, j :: 0 <= i < j < |xs| ==> key(xs[i]) != key(xs[j])
    requires forall x :: x in ys <==> x in xs[..n]
    ensures forall y :: y in ys ==> y in xs && key(y) != key(xs[n])
  {
    forall y | y in ys ensures y in xs && key(y) != key(xs[n]) {
      var i :| 0 <= i < |xs[..n]| && xs[..n][i] == y;
      assert y == xs[i];
    }
  }

  lemma InsertKeepsOrder<T(!new)>(key: T -> seq<int>, ys: seq<T>, k: nat, x: T)
    requires Ascending(key, ys) && k <= |ys|
    requires forall m :: 0 <= m < k ==> Lex(key(ys[m]), key(x))
    requires k < |ys| ==> Lex(key(x), key(ys[k]))
    ensures var out := ys[..k] + [x] + ys[k..];
            Ascending(key, out) && forall y :: y in out <==> y in ys || y == x
  {
    var out := ys[..k] + [x] + ys[k..];
    assert forall i :: 0 <= i < |out| ==> out[i] == if i < k then ys[i] else if i == k then x else ys[i - 1];
    forall m | k <= m < |ys| ensures Lex(key(x), key(ys[m])) {
      if m > k { LexTransitive(key(x), key(ys[k]), key(ys[m])); }
    }
    assert ys == ys[..k] + ys[k..];
  }
}
