/** Definitions shared by every component: an option type, the integer
    division of Go and C++, and the window of values a uint32 can hold. */
module Common {

  datatype Option<+T> = None | Some(value: T)

  /** Go's and C++'s `/`: the quotient is truncated toward zero. */
  function TruncDiv(a: int, b: int): (q: int)
    requires b > 0
  {
    if a >= 0 then a / b else -((-a) / b)
  }

  /** The sign of a truncated quotient says more than the sign of its dividend:
      it is negative only once the dividend reaches a whole negative unit. */
  lemma TruncDivNegative(a: int, b: int)
    requires b > 0
    ensures TruncDiv(a, b) < 0 <==> a <= -b
  {
    if a < 0 {
      QuotientOfNat(-a, b);
      assert TruncDiv(a, b) == -((-a) / b);
    } else {
      QuotientOfNat(a, b);
    }
  }

  lemma QuotientOfNat(a: int, b: int)
    requires a >= 0 && b > 0
    ensures a / b >= 0 && (a / b >= 1 <==> a >= b)
  {
    var q, r := a / b, a % b;
    assert a == b * q + r && 0 <= r < b;
    Scaled(b, q);
  }

  lemma Scaled(b: int, x: int)
    requires b > 0
    ensures x >= 1 ==> b * x >= b
    ensures x == 0 ==> b * x == 0
    ensures x <= -1 ==> b * x <= -b
  {
    if x >= 1 { assert b * x == b + b * (x - 1); NotNegative(b, x - 1); }
    if x <= -1 { assert b * x == -b - b * (-1 - x); NotNegative(b, -1 - x); }
  }

  lemma NotNegative(b: int, x: int)
    requires b > 0 && x >= 0
    ensures b * x >= 0
  {
  }

  const U32: int := 0x1_0000_0000

  /** Unsigned 32-bit subtraction, as in `nowMs - sinceMs`. */
  function Sub32(a: int, b: int): (d: int)
    ensures 0 <= d < U32
  {
    (a - b) % U32
  }

  lemma HasElement(s: set<int>)
    requires s != {}
    ensures exists x :: x in s
  {
    assert (forall x :: x !in s) ==> s == {};
  }

  lemma HasMember(s: seq<int>)
    requires s != []
    ensures exists x :: x in s
  {
    var x := s[0];
    assert x in s;
  }
}
