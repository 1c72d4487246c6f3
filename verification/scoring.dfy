/** The weighted attendance formula and the good/warning/critical thresholds
    that the dashboards, the admin sheet and the dashboard APIs each
    re-implement, together with the two JavaScript rounding operations they
    apply to the result (`Math.round` and `Number(x.toFixed(k))`). Values are
    exact rationals (`real`); no claim is made about IEEE-754 edge cases. */
module Scoring {

  /** The three-way classification shown on every dashboard card. */
  datatype Status = Good | Warning | Critical

  const GoodThreshold: real := 80.0
  const WarningThreshold: real := 70.0

  /** `p >= 80 ? "good" : p >= 70 ? "warning" : "critical"` */
  function Classify(p: real): (s: Status)
    ensures s == Good <==> p >= GoodThreshold
    ensures s == Warning <==> WarningThreshold <= p < GoodThreshold
    ensures s == Critical <==> p < WarningThreshold
  {
    if p >= GoodThreshold then Good else if p >= WarningThreshold then Warning else Critical
  }

  /** Rank of a status, worst first. */
  function Rank(s: Status): nat
  {
    match s
    case Critical => 0
    case Warning => 1
    case Good => 2
  }

  /** A higher percentage never gets a worse status. */
  lemma ClassifyMonotone(p: real, q: real)
    requires p <= q
    ensures Rank(Classify(p)) <= Rank(Classify(q))
  {
  }

  /** Tier weights: present 1.0, delayed (DP / LATE) 0.8, late (LP /
      VERY_LATE) 0.6, absent 0. */
  const PresentWeight: real := 1.0
  const DelayedWeight: real := 0.8
  const LateWeight: real := 0.6
  const AbsentWeight: real := 0.0

  /** `present * 1.0 + delayed * 0.8 + late * 0.6 + absent * 0` */
  function WeightedScore(present: nat, delayed: nat, late: nat, absent: nat): (w: real)
  {
    present as real * PresentWeight + delayed as real * DelayedWeight
      + late as real * LateWeight + absent as real * AbsentWeight
  }

  /** The score is the count-weighted sum, absent contributes nothing, and it
      never exceeds the number of attended classes. */
  lemma WeightedScoreBounds(present: nat, delayed: nat, late: nat, absent: nat)
    ensures WeightedScore(present, delayed, late, absent) == WeightedScore(present, delayed, late, 0)
    ensures 0.0 <= WeightedScore(present, delayed, late, absent) <= (present + delayed + late) as real
    ensures delayed + late == 0 <==> WeightedScore(present, delayed, late, absent) == present as real
  {
  }

  /** The same score in tenths of a class: 10p + 8d + 6l. */
  function ScoreTenths(present: nat, delayed: nat, late: nat): nat
  {
    10 * present + 8 * delayed + 6 * late
  }

  lemma ScoreTenthsExact(present: nat, delayed: nat, late: nat, absent: nat)
    ensures WeightedScore(present, delayed, late, absent) * 10.0 == ScoreTenths(present, delayed, late) as real
  {
  }

  /** `total > 0 ? (score / total) * 100 : 0` */
  function Percentage(score: real, total: int): (p: real)
  {
    if total > 0 then score / total as real * 100.0 else 0.0
  }

  /** The percentage of a weighted score, in tenths of a class: with classes
      held it is 10 x (10p + 8d + 6l) / total. */
  lemma PercentageFromTenths(present: nat, delayed: nat, late: nat, absent: nat, total: int)
    requires total > 0
    ensures Percentage(WeightedScore(present, delayed, late, absent), total)
         == ScoreTenths(present, delayed, late) as real * 10.0 / total as real
  {
    ScoreTenthsExact(present, delayed, late, absent);
    var w := WeightedScore(present, delayed, late, absent);
    var t := total as real;
    assert w / t * 100.0 == (w * 10.0) * 10.0 / t;
  }

  /** Attending every class is 100 %. */
  lemma FullPercentage(n: nat)
    requires n > 0
    ensures Percentage(n as real, n) == 100.0
  {
    var t := n as real;
    assert t / t == 1.0;
  }

  /** A score between 0 and the number of classes is a percentage in [0, 100]. */
  lemma PercentageInRange(score: real, total: int)
    requires 0.0 <= score <= total as real
    ensures 0.0 <= Percentage(score, total) <= 100.0
  {
    if total > 0 {
      var t := total as real;
      assert score / t <= 1.0 by {
        assert score / t * t == score;
      }
    }
  }

  /** The percentage grows with the score. */
  lemma PercentageMonotone(a: real, b: real, total: int)
    requires a <= b
    ensures Percentage(a, total) <= Percentage(b, total)
  {
    if total > 0 {
      var t := total as real;
      assert a / t <= b / t by {
        assert (b - a) / t >= 0.0;
        assert b / t - a / t == (b - a) / t;
      }
    }
  }

  /** JavaScript's `Math.round`: the nearest integer, halves rounded up. */
  function RoundHalfUp(x: real): (r: int)
    ensures x - 0.5 < r as real <= x + 0.5
  {
    (x + 0.5).Floor
  }

  /** Two numbers within the same half-unit window round to the same integer,
      so `Math.round` is monotone. */
  lemma RoundHalfUpMonotone(x: real, y: real)
    requires x <= y
    ensures RoundHalfUp(x) <= RoundHalfUp(y)
  {
  }

  /** An integer between lo and hi rounds into [lo, hi] when x does. */
  lemma RoundHalfUpWithin(x: real, lo: int, hi: int)
    requires lo as real <= x <= hi as real
    ensures lo <= RoundHalfUp(x) <= hi
  {
  }

  /** `Number(x.toFixed(1))`: rounds the magnitude to one decimal, halves
      away from zero. */
  function Round1(x: real): (r: real)
    ensures x >= 0.0 ==> r >= 0.0
    ensures x - 0.05 <= r <= x + 0.05
    ensures x >= 0.0 ==> x - 0.05 < r
    ensures x < 0.0 ==> r < x + 0.05
    ensures OnGrid(r, 10.0)
  {
    if x < 0.0 then
      var m := Round1Magnitude(-x);
      NegatedGrid(m, 10.0);
      -m
    else Round1Magnitude(x)
  }

  function Round1Magnitude(x: real): (r: real)
    requires x >= 0.0
    ensures r >= 0.0
    ensures x - 0.05 < r <= x + 0.05
    ensures OnGrid(r, 10.0)
  {
    RoundHalfUp(x * 10.0) as real / 10.0
  }

  /** `Number(x.toFixed(2))` */
  function Round2(x: real): (r: real)
    ensures x - 0.005 <= r <= x + 0.005
    ensures x >= 0.0 ==> x - 0.005 < r
    ensures x < 0.0 ==> r < x + 0.005
    ensures OnGrid(r, 100.0)
  {
    if x < 0.0 then
      var m := Round2Magnitude(-x);
      NegatedGrid(m, 100.0);
      -m
    else Round2Magnitude(x)
  }

  /** r is a whole number of 1/scale steps (tenths for 10, hundredths for
      100). */
  predicate OnGrid(r: real, scale: real)
  {
    (r * scale).Floor as real == r * scale
  }

  /** A whole number of steps stays whole when negated. */
  lemma NegatedGrid(m: real, scale: real)
    requires OnGrid(m, scale)
    ensures OnGrid(-m, scale)
  {
    var n := (m * scale).Floor;
    assert (-m) * scale == (-n) as real;
  }

  function Round2Magnitude(x: real): (r: real)
    requires x >= 0.0
    ensures r >= 0.0
    ensures x - 0.005 < r <= x + 0.005
    ensures OnGrid(r, 100.0)
  {
    RoundHalfUp(x * 100.0) as real / 100.0
  }

  /** A full percentage is shown as 100. */
  lemma Round1Hundred()
    ensures Round1(100.0) == 100.0
  {
    assert RoundHalfUp(1000.0) == 1000;
  }

  /** One-decimal rounding keeps a percentage in [0, 100]. */
  lemma Round1InRange(x: real)
    requires 0.0 <= x <= 100.0
    ensures 0.0 <= Round1(x) <= 100.0
  {
    RoundHalfUpWithin(x * 10.0, 0, 1000);
  }

  /** One-decimal rounding is monotone. */
  lemma Round1Monotone(x: real, y: real)
    requires 0.0 <= x <= y
    ensures Round1(x) <= Round1(y)
  {
    RoundHalfUpMonotone(x * 10.0, y * 10.0);
  }
}
