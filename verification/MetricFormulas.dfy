/**
 * The PPM formulas: weighted scores of clamped linear ramps, each rounded to a whole
 * number of parts per million before the next formula uses it.
 */
module MetricFormulas {
  import opened Wrappers

  const PPM := 1_000_000.0

  function Clamp01(x: real): (r: real)
    ensures 0.0 <= r <= 1.0
    ensures 0.0 <= x <= 1.0 ==> r == x
  {
    var atLeastZero := if x > 0.0 then x else 0.0;
    if atLeastZero < 1.0 then atLeastZero else 1.0
  }

  /** A ramp from 0 at `low` to 1 at `high`. */
  function Linear(x: real, low: real, high: real): (r: real)
    requires low < high
    ensures 0.0 <= r <= 1.0
  {
    Clamp01((x - low) / (high - low))
  }

  /** Decimal's default rounding: to nearest, ties to the even neighbour. */
  function RoundHalfEven(x: real): (r: int)
    ensures r as real - 0.5 <= x <= r as real + 0.5
    ensures x == r as real - 0.5 || x == r as real + 0.5 ==> r % 2 == 0
  {
    var below := x.Floor;
    var over := x - below as real;
    if over < 0.5 || (over == 0.5 && below % 2 == 0) then below else below + 1
  }

  /** A metric value: whole parts per million. */
  type PpmValue = v: int | 0 <= v <= 1_000_000

  function Ppm(x: real): PpmValue {
    RoundHalfEven(Clamp01(x) * PPM)
  }

  function FromPpm(v: int): real { v as real / PPM }

  // ---- scores before rounding

  function RiseScore(current: real, previous: real): real {
    0.65 * Linear(current, 0.015, 0.040) + 0.35 * Linear(current - previous, 0.008, 0.025)
  }

  /** `lift` is the share over its historical baseline. */
  function HeadScore(share: real, lift: real): real {
    0.60 * Linear(share, 0.35, 0.60) + 0.40 * Linear(lift, 1.20, 1.80)
  }

  function DivergenceScore(dispersion: real, opposite: real): real {
    0.55 * Linear(dispersion, 0.006, 0.020) + 0.45 * Linear(opposite, 0.30, 0.60)
  }

  /** `rise` and `head` are fractions, exact or read back from their PPM. */
  function CrowdingScore(rise: real, turnover: real, head: real): real {
    0.35 * rise + 0.35 * Linear(turnover, 1.30, 2.50) + 0.30 * head
  }

  /** `drop` is one minus the current amount over the previous one. */
  function LiquidityScore(drop: real, inactive: real): real {
    0.70 * Linear(drop, 0.20, 0.60) + 0.30 * Linear(inactive, 0.10, 0.35)
  }

  function CoreScore(core: real, noncore: real, breadth: real): real {
    0.65 * Linear(noncore - core, 0.005, 0.025) + 0.35 * Linear(0.50 - breadth, 0.0, 0.30)
  }

  function CollapseScore(current: real, previous: real): real {
    0.60 * Linear(previous - current, 0.15, 0.40) + 0.40 * Linear(0.45 - current, 0.0, 0.25)
  }

  function StampedeScore(sector: real, turnover: real, collapse: real): real {
    0.45 * collapse + 0.35 * Linear(-sector, 0.015, 0.040) + 0.20 * Linear(turnover, 1.30, 2.50)
  }

  function ChasingScore(day: real, rise: real, crowding: real, head: real): real {
    0.35 * rise + 0.25 * crowding + 0.20 * head + 0.20 * Linear(day, 0.025, 0.070)
  }

  function EarlyFailureScore(returnDrop: real, breadthDrop: real, turnoverDrop: real): real {
    0.45 * Linear(returnDrop, 0.010, 0.035) + 0.35 * Linear(breadthDrop, 0.15, 0.40)
      + 0.20 * Linear(turnoverDrop, 0.30, 1.00)
  }

  /** A fresh start counts, an overextended one does not. */
  function FreshStart(sector: real): (r: real)
    ensures 0.0 <= r <= 1.0
  {
    var start, over := Linear(sector, 0.003, 0.012), Linear(sector, 0.025, 0.045);
    ProductInUnit(start, 1.0 - over);
    start * (1.0 - over)
  }

  function EarlyActivityScore(sector: real, breadth: real, turnover: real): real {
    0.35 * FreshStart(sector)
      + 0.35 * Linear(breadth, 0.52, 0.72) + 0.30 * Linear(turnover, 1.20, 2.00)
  }

  function HealthyBreadthScore(breadth: real, head: real): real {
    Linear(breadth, 0.50, 0.75) * (1.0 - 0.40 * head)
  }

  function StrengthScore(over5m: real, over15m: real): real {
    0.60 * Linear(over5m, 0.002, 0.015) + 0.40 * Linear(over15m, 0.003, 0.025)
  }

  function EtfScore(context: real, market: real): real {
    0.55 * Linear(context, 0.001, 0.010) + 0.45 * Linear(context - market, 0.001, 0.008)
  }

  function TurnoverScore(turnover: real): real { Linear(turnover, 1.10, 2.20) }

  function StyleScore(over: real): real { Linear(over, 0.001, 0.010) }

  function Abs(x: real): real { if x < 0.0 then -x else x }

  /** How steadily three values in a row rose: fully, with one small setback, or not. */
  function ContinuityComponent(a: real, b: real, c: real, floor: real, tolerance: real): (r: real)
    ensures 0.0 <= r <= 1.0
  {
    var first, second := b - a, c - b;
    if a <= floor || b <= floor || c <= floor then 0.0
    else if first >= 0.0 && second >= 0.0 then 1.0
    else if first < 0.0 && second < 0.0 then 0.0
    else if Abs(if first < 0.0 then first else second) <= tolerance && c >= a then 0.5
    else 0.0
  }

  function ContinuityScore(strength: real, breadth: real, turnover: real): real {
    strength * 0.40 + breadth * 0.35 + turnover * 0.25
  }

  // ---- rounding

  lemma RoundMonotone(x: real, y: real)
    requires x <= y
    ensures RoundHalfEven(x) <= RoundHalfEven(y)
  {
  }

  lemma LinearMonotone(x: real, y: real, low: real, high: real)
    requires x <= y && low < high
    ensures Linear(x, low, high) <= Linear(y, low, high)
  {
    assert (x - low) / (high - low) <= (y - low) / (high - low);
  }

  /** How far x is along the way from `low` to `high`: not at all, wholly, or the fraction f between. */
  ghost predicate Along(x: real, low: real, high: real, f: real) {
    if x <= low then f == 0.0 else if x >= high then f == 1.0 else 0.0 < f < 1.0 && f * (high - low) == x - low
  }

  lemma LinearAlong(x: real, low: real, high: real, f: real)
    requires low < high && Along(x, low, high, f)
    ensures Linear(x, low, high) == f && 0.0 <= f <= 1.0
  {
    var d, y := high - low, x - low;
    assert y / d * d == y;
    if x <= low {
      QuotientOrder(y, 0.0, d);
    } else if x >= high {
      QuotientOrder(d, y, d);
      assert d / d == 1.0;
    } else {
      QuotientIs(y, d, f);
    }
  }

  lemma QuotientIs(y: real, d: real, f: real)
    requires d > 0.0 && f * d == y
    ensures y / d == f
  {
    QuotientOrder(f * d, y, d);
    QuotientOrder(y, f * d, d);
    assert f * d / d == f;
  }

  lemma QuotientOrder(a: real, b: real, d: real)
    requires a <= b && d > 0.0
    ensures a / d <= b / d
  {
  }

  lemma PpmMonotone(x: real, y: real)
    requires x <= y
    ensures Ppm(x) <= Ppm(y)
  {
    RoundMonotone(Clamp01(x) * PPM, Clamp01(y) * PPM);
  }

  /** A score in [0,1] is rounded to within half a PPM. */
  lemma PpmError(x: real)
    requires 0.0 <= x <= 1.0
    ensures -0.5 <= Ppm(x) as real - x * PPM <= 0.5
  {
  }

  lemma ProductInUnit(x: real, y: real)
    requires 0.0 <= x <= 1.0 && 0.0 <= y <= 1.0
    ensures 0.0 <= x * y <= 1.0
  {
    var slack := 1.0 - x;
    assert 0.0 <= x * y && 0.0 <= slack * y;
    assert x * y + slack * y == y;
  }

  ghost predicate InUnit(x: real) { 0.0 <= x <= 1.0 }

  // Every score is a convex (or damped) mix of fractions: the clamp before rounding never acts.

  lemma RampMixesInUnit(a: real, b: real, c: real)
    ensures InUnit(RiseScore(a, b)) && InUnit(DivergenceScore(a, b)) && InUnit(CoreScore(a, b, c))
    ensures InUnit(CollapseScore(a, b)) && InUnit(EarlyFailureScore(a, b, c))
    ensures InUnit(StrengthScore(a, b)) && InUnit(EtfScore(a, b))
    ensures InUnit(HeadScore(a, b)) && InUnit(LiquidityScore(a, b))
    ensures InUnit(TurnoverScore(a)) && InUnit(StyleScore(a))
  {
  }

  /** The continuity mix of three components, whatever the three values, floor and tolerance of each. */
  lemma ContinuityMixInUnit(a: (real, real, real), b: (real, real, real), c: (real, real, real),
                            floor: (real, real, real), tolerance: (real, real, real))
    ensures InUnit(ContinuityScore(ContinuityComponent(a.0, a.1, a.2, floor.0, tolerance.0),
                                   ContinuityComponent(b.0, b.1, b.2, floor.1, tolerance.1),
                                   ContinuityComponent(c.0, c.1, c.2, floor.2, tolerance.2)))
  {
    hide ContinuityComponent;
  }

  lemma PpmMixesInUnit(a: real, b: real, p: PpmValue, q: PpmValue, r: PpmValue)
    ensures InUnit(CrowdingScore(FromPpm(p), a, FromPpm(q)))
    ensures InUnit(StampedeScore(a, b, FromPpm(p)))
    ensures InUnit(ChasingScore(a, FromPpm(p), FromPpm(q), FromPpm(r)))
  {
  }

  lemma DampedMixesInUnit(a: real, b: real, c: real, p: PpmValue)
    ensures InUnit(EarlyActivityScore(a, b, c)) && InUnit(HealthyBreadthScore(a, FromPpm(p)))
  {
    var start := FreshStart(a);
    assert InUnit(EarlyActivityScore(a, b, c));
    ProductInUnit(Linear(a, 0.50, 0.75), 1.0 - 0.40 * FromPpm(p));
  }

  // ---- the T1 chain: rise, head, crowding, chasing

  datatype ChainInput = ChainInput(
    day: real, current: real, previous: real, turnover: real, share: real, baseline: real)

  /** The chain as the program computes it: each stage rounded before the next reads it. */
  function RisePpm(x: ChainInput): PpmValue { Ppm(RiseScore(x.current, x.previous)) }

  function Lift(x: ChainInput): real
    requires x.baseline > 0.0
  {
    x.share / x.baseline
  }

  function HeadPpm(x: ChainInput): PpmValue
    requires x.baseline > 0.0
  {
    Ppm(HeadScore(x.share, Lift(x)))
  }

  function CrowdingPpm(x: ChainInput): PpmValue
    requires x.baseline > 0.0
  {
    Ppm(CrowdingScore(FromPpm(RisePpm(x)), x.turnover, FromPpm(HeadPpm(x))))
  }

  function ChasingPpm(x: ChainInput): PpmValue
    requires x.baseline > 0.0
  {
    Ppm(ChasingScore(x.day, FromPpm(RisePpm(x)), FromPpm(CrowdingPpm(x)), FromPpm(HeadPpm(x))))
  }

  /** The same chain with no rounding before the end. */
  function ExactChasing(x: ChainInput): real
    requires x.baseline > 0.0
  {
    var rise, head := RiseScore(x.current, x.previous), HeadScore(x.share, Lift(x));
    ChasingScore(x.day, rise, CrowdingScore(rise, x.turnover, head), head)
  }

  /** Three half-PPM roundings, weighted through the chain, add up to 0.98125. */
  lemma DriftAddsUp(rise: real, head: real, turnover: real, day: real,
                    p: real, q: real, r: real, t: real)
    requires -0.5 <= p - rise * PPM <= 0.5 && -0.5 <= q - head * PPM <= 0.5
    requires -0.5 <= r - (0.35 * p + 0.35 * turnover * PPM + 0.30 * q) <= 0.5
    requires -0.5 <= t - (0.35 * p + 0.25 * r + 0.20 * q + 0.20 * day * PPM) <= 0.5
    ensures var exact := 0.35 * rise + 0.25 * (0.35 * rise + 0.35 * turnover + 0.30 * head)
                         + 0.20 * head + 0.20 * day;
            -0.98125 <= t - exact * PPM <= 0.98125
  {
  }

  lemma ExactChasingInUnit(x: ChainInput)
    requires x.baseline > 0.0
    ensures InUnit(ExactChasing(x))
  {
    RampMixesInUnit(x.current, x.previous, 0.0);
    RampMixesInUnit(x.share, Lift(x), 0.0);
  }

  /** Ppm(score) is within half a PPM of the score. */
  ghost predicate HalfPpm(v: int, score: real) { -0.5 <= v as real - score * PPM <= 0.5 }

  lemma SourceErrors(current: real, previous: real, share: real, lift: real)
    ensures HalfPpm(Ppm(RiseScore(current, previous)), RiseScore(current, previous))
    ensures HalfPpm(Ppm(HeadScore(share, lift)), HeadScore(share, lift))
  {
    RampMixesInUnit(current, previous, 0.0);
    RampMixesInUnit(share, lift, 0.0);
    PpmError(RiseScore(current, previous));
    PpmError(HeadScore(share, lift));
  }

  lemma MixErrors(turnover: real, day: real, p: PpmValue, q: PpmValue, r: PpmValue)
    ensures var crowding := CrowdingScore(FromPpm(p), turnover, FromPpm(q));
            HalfPpm(Ppm(crowding), crowding)
    ensures var chasing := ChasingScore(day, FromPpm(p), FromPpm(r), FromPpm(q));
            HalfPpm(Ppm(chasing), chasing)
  {
    PpmMixesInUnit(turnover, 0.0, p, q, 0);
    PpmError(CrowdingScore(FromPpm(p), turnover, FromPpm(q)));
    PpmMixesInUnit(day, 0.0, p, r, q);
    PpmError(ChasingScore(day, FromPpm(p), FromPpm(r), FromPpm(q)));
  }

  /**
   * Rounding at every stage moves the final value by at most 0.98125 PPM, so it never
   * differs from the exactly computed and once rounded value by more than one PPM.
   */
  lemma NestedRoundingDrift(x: ChainInput)
    requires x.baseline > 0.0
    ensures -0.98125 <= ChasingPpm(x) as real - ExactChasing(x) * PPM <= 0.98125
    ensures -1 <= ChasingPpm(x) - Ppm(ExactChasing(x)) <= 1
  {
    SourceErrors(x.current, x.previous, x.share, Lift(x));
    MixErrors(x.turnover, x.day, RisePpm(x), HeadPpm(x), CrowdingPpm(x));
    DriftAddsUp(RiseScore(x.current, x.previous), HeadScore(x.share, Lift(x)),
                Linear(x.turnover, 1.30, 2.50), Linear(x.day, 0.025, 0.070),
                RisePpm(x) as real, HeadPpm(x) as real, CrowdingPpm(x) as real,
                ChasingPpm(x) as real);
    ExactChasingInUnit(x);
    PpmError(ExactChasing(x));
  }

  /** Faster, hotter, more concentrated: no input of the chain can lower the risk by rising. */
  ghost predicate Hotter(x: ChainInput, y: ChainInput) {
    && x.day <= y.day && x.turnover <= y.turnover
    && x.current <= y.current && x.current - x.previous <= y.current - y.previous
    && x.baseline > 0.0 && y.baseline > 0.0
    && x.share <= y.share && Lift(x) <= Lift(y)
  }

  lemma ChainMonotone(x: ChainInput, y: ChainInput)
    requires Hotter(x, y)
    ensures RisePpm(x) <= RisePpm(y) && HeadPpm(x) <= HeadPpm(y)
    ensures CrowdingPpm(x) <= CrowdingPpm(y) && ChasingPpm(x) <= ChasingPpm(y)
  {
    LinearMonotone(x.current, y.current, 0.015, 0.040);
    LinearMonotone(x.current - x.previous, y.current - y.previous, 0.008, 0.025);
    PpmMonotone(RiseScore(x.current, x.previous), RiseScore(y.current, y.previous));
    LinearMonotone(x.share, y.share, 0.35, 0.60);
    LinearMonotone(Lift(x), Lift(y), 1.20, 1.80);
    PpmMonotone(HeadScore(x.share, Lift(x)), HeadScore(y.share, Lift(y)));
    LinearMonotone(x.turnover, y.turnover, 1.30, 2.50);
    PpmMonotone(CrowdingScore(FromPpm(RisePpm(x)), x.turnover, FromPpm(HeadPpm(x))),
                CrowdingScore(FromPpm(RisePpm(y)), y.turnover, FromPpm(HeadPpm(y))));
    LinearMonotone(x.day, y.day, 0.025, 0.070);
    PpmMonotone(
      ChasingScore(x.day, FromPpm(RisePpm(x)), FromPpm(CrowdingPpm(x)), FromPpm(HeadPpm(x))),
      ChasingScore(y.day, FromPpm(RisePpm(y)), FromPpm(CrowdingPpm(y)), FromPpm(HeadPpm(y))));
  }
}
