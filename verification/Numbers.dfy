/** Rounding to four decimals, and the smaller and larger of two numbers. */
module Numbers {

  /** The nearest integer, ties to the even one. */
  function RoundHalfEven(x: real): int {
    var low := x.Floor;
    var fraction := x - low as real;
    if fraction < 0.5 || (fraction == 0.5 && low % 2 == 0) then low else low + 1
  }

  function Round4(x: real): real {
    RoundHalfEven(x * 10000.0) as real / 10000.0
  }

  lemma RoundingIsIdempotent(x: real)
    ensures Round4(Round4(x)) == Round4(x)
  {
    var k := RoundHalfEven(x * 10000.0);
    assert (k as real / 10000.0) * 10000.0 == k as real;
    assert (k as real).Floor == k;
  }

  lemma RoundingIsMonotone(x: real, y: real)
    requires x <= y
    ensures Round4(x) <= Round4(y)
  {
    var a, b := x * 10000.0, y * 10000.0;
    assert a.Floor <= b.Floor;
    if a.Floor == b.Floor {
      assert a - a.Floor as real <= b - b.Floor as real;
    }
    assert RoundHalfEven(a) <= RoundHalfEven(b);
  }

  lemma RoundingKeepsSign(x: real)
    requires 0.0 <= x
    ensures 0.0 <= Round4(x) && Round4(0.0) == 0.0
  {
    assert RoundHalfEven(0.0) == 0;
    RoundingIsMonotone(0.0, x);
  }

  /** Rounding gives a multiple of a ten-thousandth that is nearest, and the even one of two equally near. */
  lemma RoundingIsNearest(x: real) returns (k: int)
    ensures Round4(x) * 10000.0 == k as real
    ensures -1.0 <= 20000.0 * (Round4(x) - x) <= 1.0
    ensures 20000.0 * (Round4(x) - x) in {-1.0, 1.0} ==> k % 2 == 0
  {
    k := RoundHalfEven(x * 10000.0);
    assert (k as real / 10000.0) * 10000.0 == k as real;
    var low := (x * 10000.0).Floor;
    assert low as real <= x * 10000.0 < low as real + 1.0;
    assert k == low || k == low + 1;
  }

  function Max(a: real, b: real): real {
    if a >= b then a else b
  }

  function Min(a: real, b: real): real {
    if a <= b then a else b
  }
}
