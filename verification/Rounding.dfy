/** Rounding of doubles as the system uses it: `Math.Round` takes midpoints to the even neighbour. */
module Rounding {

  /** The nearest integer; a midpoint goes to the even neighbour. */
  function RoundHalfEven(x: real): (n: int)
    ensures x - 0.5 <= n as real <= x + 0.5
    ensures x == x.Floor as real ==> n == x.Floor
  {
    var below := x.Floor;
    var rest := x - below as real;
    if rest < 0.5 || (rest == 0.5 && below % 2 == 0) then below else below + 1
  }

  lemma RoundHalfEvenMonotone(x: real, y: real)
    requires x <= y
    ensures RoundHalfEven(x) <= RoundHalfEven(y)
  {
    if x.Floor == y.Floor {
    } else {
      assert x.Floor + 1 <= y.Floor;
    }
  }

  /** `Math.Round(x, 2)`: a whole number of hundredths, at most half a hundredth away. */
  function Round2(x: real): (r: real)
    ensures x - 0.005 <= r <= x + 0.005
  {
    RoundHalfEven(x * 100.0) as real / 100.0
  }

  /** `Math.Round(x, 4)`: a whole number of ten-thousandths, at most half of one away. */
  function Round4(x: real): (r: real)
    ensures x - 0.00005 <= r <= x + 0.00005
  {
    RoundHalfEven(x * 10000.0) as real / 10000.0
  }

  /** `r` is the whole number of units nearest to `x`, the even one of two equally near; `scale` units are 1. */
  ghost predicate IsNearest(r: real, x: real, scale: int) {
    var n := (r * scale as real).Floor;
    var off := x * scale as real - n as real;
    && r * scale as real == n as real
    && -0.5 <= off <= 0.5
    && (off == 0.5 || off == -0.5 ==> n % 2 == 0)
  }

  lemma RoundHalfEvenIsNearest(x: real)
    ensures var n := RoundHalfEven(x);
            n as real == x - 0.5 || n as real == x + 0.5 ==> n % 2 == 0
  {
  }

  lemma Round2IsNearest(x: real)
    ensures IsNearest(Round2(x), x, 100)
  {
    RoundHalfEvenIsNearest(x * 100.0);
    assert (Round2(x) * 100.0).Floor == RoundHalfEven(x * 100.0);
  }

  lemma Round4IsNearest(x: real)
    ensures IsNearest(Round4(x), x, 10_000)
  {
    RoundHalfEvenIsNearest(x * 10000.0);
    assert (Round4(x) * 10000.0).Floor == RoundHalfEven(x * 10000.0);
  }

  /** `n` hundredths. */
  function Hundredths(n: int): real {
    n as real / 100.0
  }

  lemma Round2Exact(n: int)
    ensures Round2(Hundredths(n)) == Hundredths(n)
  {
    assert Hundredths(n) * 100.0 == n as real;
  }

  lemma Round2Monotone(x: real, y: real)
    requires x <= y
    ensures Round2(x) <= Round2(y)
  {
    RoundHalfEvenMonotone(x * 100.0, y * 100.0);
  }

  function Max(a: real, b: real): real {
    if a < b then b else a
  }

  function Min(a: real, b: real): real {
    if b < a then b else a
  }

  /** `Math.Max(0.0, x)` */
  function Positive(x: real): real {
    Max(0.0, x)
  }
}
