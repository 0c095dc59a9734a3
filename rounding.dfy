/** The percentage arithmetic shared by the completion screen
    (src/pages/Quiz.tsx) and the dashboard (src/pages/Dashboard.tsx):
    `Math.round(score / total * 100)`, computed here over exact reals. */
module Rounding {

  /** `Math.round`: the nearest integer, a half rounded up (towards +infinity). */
  function Round(x: real): (r: int)
    ensures x - 0.5 < r as real <= x + 0.5
  {
    (x + 0.5).Floor
  }

  /** `score / total * 100` before rounding. */
  function Percent(score: int, total: int): (p: real)
    requires total > 0
    ensures 0 <= score <= total ==> 0.0 <= p <= 100.0
    ensures score == total ==> p == 100.0
    ensures p * total as real == 100.0 * score as real
  {
    var fraction := score as real / total as real;
    assert fraction * total as real == score as real;
    assert 0 <= score <= total ==> 0.0 <= fraction <= 1.0;
    fraction * 100.0
  }

  /** The percentage shown for `score` out of `total`. */
  function RoundedPercent(score: int, total: int): (p: int)
    requires total > 0
    ensures 0 <= score <= total ==> 0 <= p <= 100
    ensures score == total ==> p == 100
    ensures score == 0 ==> p == 0
  {
    Round(Percent(score, total))
  }

  /** Multiplying by a positive factor keeps the order of two reals. */
  lemma ScaleKeepsOrder(x: real, y: real, t: real)
    requires t > 0.0
    ensures x >= y <==> x * t >= y * t
  {
    assert x * t - y * t == (x - y) * t;
  }

  /** A rounded percentage reaches `bound` exactly when the exact
      percentage is at least `bound - 1/2`, i.e. 200*score >= (2*bound - 1)*total. */
  lemma RoundedPercentAtLeast(score: int, total: int, bound: int)
    requires total > 0
    ensures RoundedPercent(score, total) >= bound <==> 200 * score >= (2 * bound - 1) * total
  {
    var p, t := Percent(score, total), total as real;
    assert RoundedPercent(score, total) >= bound <==> p >= bound as real - 0.5;
    ScaleKeepsOrder(p, bound as real - 0.5, t);
    var lhs, rhs := 100.0 * score as real, ((2 * bound - 1) * total) as real / 2.0;
    assert p * t == lhs;
    assert ((2 * bound - 1) * total) as real == (2 * bound - 1) as real * t;
    assert (bound as real - 0.5) * t == rhs;
    assert lhs >= rhs <==> 200 * score >= (2 * bound - 1) * total;
  }
}
