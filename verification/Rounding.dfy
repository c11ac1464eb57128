/** math.Round and the twoDecimals helpers (agent/utils/utils.go:35-37, internal/records/records.go:480-482),
    over real numbers. */
module Rounding {

  /** Nearest integer, halves away from zero. */
  function Round(x: real): int {
    if x >= 0.0 then (x + 0.5).Floor else -((-x + 0.5).Floor)
  }

  function TwoDecimals(x: real): real {
    Round(x * 100.0) as real / 100.0
  }

  /** A value the agent would send: a whole number of hundredths. */
  predicate OnGrid(x: real) {
    TwoDecimals(x) == x
  }

  lemma RoundIsNearest(x: real)
    ensures -0.5 <= Round(x) as real - x <= 0.5
  {
  }

  lemma RoundMonotone(x: real, y: real)
    requires x <= y
    ensures Round(x) <= Round(y)
  {
  }

  lemma RoundOfInteger(n: int)
    ensures Round(n as real) == n
  {
  }

  /** Rounding moves a value by at most half a hundredth. */
  lemma TwoDecimalsIsNear(x: real)
    ensures -0.005 <= TwoDecimals(x) - x <= 0.005
  {
    RoundIsNearest(x * 100.0);
  }

  /** The nearest hundredth; of two equally near ones the larger, and the same for negative values: halves go away from
      zero. */
  lemma TwoDecimalsIs(x: real, n: nat)
    requires x >= 0.0
    ensures TwoDecimals(x) == n as real / 100.0 <==> n as real - 0.5 <= 100.0 * x < n as real + 0.5
    ensures TwoDecimals(-x) == -TwoDecimals(x)
  {
    hide Round;
    RoundIs(x * 100.0, n);
    SameHundredths(Round(x * 100.0), n);
    assert -x * 100.0 == -(x * 100.0);
  }

  lemma RoundIs(x: real, n: nat)
    requires x >= 0.0
    ensures Round(x) == n <==> n as real - 0.5 <= x < n as real + 0.5
    ensures Round(-x) == -Round(x)
  {
  }

  lemma SameHundredths(m: int, n: int)
    ensures m as real / 100.0 == n as real / 100.0 <==> m == n
    ensures (-m) as real / 100.0 == -(m as real / 100.0)
  {
  }

  lemma TwoDecimalsMonotone(x: real, y: real)
    requires x <= y
    ensures TwoDecimals(x) <= TwoDecimals(y)
  {
    RoundMonotone(x * 100.0, y * 100.0);
  }

  lemma TwoDecimalsOnGrid(x: real)
    ensures OnGrid(TwoDecimals(x))
  {
    var n := Round(x * 100.0);
    assert TwoDecimals(x) * 100.0 == n as real;
    RoundOfInteger(n);
  }
}
