/**
 * What each reported value says, code by code, from the returns, breadths, amounts and shares of the
 * sector: when it is a value at all, where it lies between its ends, and which way it moves.
 */
module MetricMeaning {
  import opened Wrappers
  import opened Sorting
  import opened Text
  import opened Domain
  import opened MetricFormulas
  import opened MetricProducer
  import MarketMetrics

  ghost function Facts(x: MetricInput): BaseFacts { BaseOf(x, ValidSector(x)) }

  ghost function Reported(current: bool, x: MetricInput, code: MetricCode): MetricValue {
    var out := Evaluation(current, x);
    if code in out.values then out.values[code] else Missing
  }

  /** The quality lets the code be reported: any but UNFIT for a Guardian metric, FIT for a Scout metric. */
  ghost predicate Shows(current: bool, x: MetricInput, code: MetricCode) {
    var fitness := Evaluation(current, x).quality.fitness;
    code in ALL_CODES && fitness != Unfit && (code in SCOUT_CODES ==> fitness == Fit)
  }

  ghost predicate Near(v: MetricValue, score: real) {
    v.Value? && -0.5 <= v.ppm as real - score * 1_000_000.0 <= 0.5
  }

  function Fraction(v: MetricValue): real { if v.Value? then v.ppm as real / 1_000_000.0 else 0.0 }

  ghost function Scored(current: bool, x: MetricInput): Option<PpmValue> {
    if current then Continuity(x.observations) else None
  }

  lemma ReportedIs(current: bool, x: MetricInput, code: MetricCode)
    requires Shows(current, x, code)
    ensures Reported(current, x, code) == ScoreOf(ScoresOf(ContextsOf(x), Facts(x), Scored(current, x)), code)
  {
    MarketMetrics.QualityLevels(x);
    hide BaseOf, ValidSector, EvidenceOf, SectorQuality, ScoreOf, ScoresOf, Continuity, ContextsOf;
  }

  /** Which formula stands behind each Guardian code. */
  lemma GuardianFormulas(c: Contexts, b: BaseFacts, continuity: Option<PpmValue>)
    ensures var s := ScoresOf(c, b, continuity);
            && ScoreOf(s, RiseRate) == OrMissing(Rise(b)) && ScoreOf(s, HeadConcentration) == OrMissing(Head(b))
            && ScoreOf(s, InternalDivergence) == OrMissing(b.divergence) && ScoreOf(s, Crowding) == OrMissing(Crowded(b))
            && ScoreOf(s, LiquidityWeakening) == OrMissing(Liquidity(b))
            && ScoreOf(s, CoreWeakening) == OrMissing(CoreWeak(b))
            && ScoreOf(s, BreadthCollapse) == OrMissing(Collapsing(b))
            && ScoreOf(s, StampedeRisk) == OrMissing(Stampede(b)) && ScoreOf(s, T1Chasing) == OrMissing(Chasing(b))
            && ScoreOf(s, EarlySignalFailure)
               == (if c.early.Some? then OrMissing(EarlyFailure(c.early.value, b)) else NotApplicable)
  {
    hide Rise, Head, Crowded, Liquidity, CoreWeak, Collapsing, Stampede, Chasing, EarlyFailure, EarlyStart, WideBreadth,
         Strength, TurnoverPpm, EtfValue, StyleValue, OrMissing;
  }

  lemma ScoutFormulas(c: Contexts, b: BaseFacts, continuity: Option<PpmValue>)
    ensures var s := ScoresOf(c, b, continuity);
            && ScoreOf(s, EarlyActivity) == OrMissing(EarlyStart(b))
            && ScoreOf(s, HealthyBreadth) == OrMissing(WideBreadth(b))
            && ScoreOf(s, RelativeStrength) == OrMissing(Strength(b))
            && ScoreOf(s, TurnoverConfirmation) == OrMissing(TurnoverPpm(b))
            && ScoreOf(s, EtfConfirmation) == EtfValue(c.etf, b.market5m)
            && ScoreOf(s, StyleSupport) == StyleValue(c.style, b.market5m)
            && ScoreOf(s, LowCrowding)
               == (if Crowded(b).None? then Missing else Value(1_000_000 - Crowded(b).value))
            && ScoreOf(s, ContinuityStrengthening) == OrMissing(continuity)
  {
    hide Rise, Head, Crowded, Liquidity, CoreWeak, Collapsing, Stampede, Chasing, EarlyFailure, EarlyStart, WideBreadth,
         Strength, TurnoverPpm, EtfValue, StyleValue, OrMissing;
  }

  /** Where a code is shown, so are the Guardian codes it builds on. */
  lemma AlsoShows(current: bool, x: MetricInput, code: MetricCode)
    requires Shows(current, x, code)
    ensures forall c <- GUARDIAN_CODES :: Shows(current, x, c)
  {
    hide Evaluation;
  }

  // ---- the formulas, read along their ramps

  lemma NearScore(score: real)
    requires 0.0 <= score <= 1.0
    ensures Near(Value(Ppm(score)), score)
  {
    PpmError(score);
    hide Ppm;
  }

  lemma HeadParts(share: real, baseline: real, lift: real, f: real, g: real)
    requires baseline > 0.0 && lift * baseline == share
    requires Along(share, 0.35, 0.60, f) && Along(lift, 1.20, 1.80, g)
    ensures Near(Value(Ppm(HeadScore(share, share / baseline))), 0.60 * f + 0.40 * g)
  {
    QuotientIs(share, baseline, lift);
    LinearAlong(share, 0.35, 0.60, f);
    LinearAlong(lift, 1.20, 1.80, g);
    hide Linear, Along, Near, Ppm;
    NearScore(0.60 * f + 0.40 * g);
  }

  lemma LiquidityParts(amount: real, before: real, inactive: real, drop: real, f: real, g: real)
    requires before > 0.0 && (1.0 - drop) * before == amount
    requires Along(drop, 0.20, 0.60, f) && Along(inactive, 0.10, 0.35, g)
    ensures Near(Value(Ppm(LiquidityScore(1.0 - amount / before, inactive))), 0.70 * f + 0.30 * g)
  {
    QuotientIs(amount, before, 1.0 - drop);
    assert 1.0 - amount / before == drop;
    LinearAlong(drop, 0.20, 0.60, f);
    LinearAlong(inactive, 0.10, 0.35, g);
    hide Linear, Along, Near, Ppm;
    NearScore(0.70 * f + 0.30 * g);
  }

  lemma EarlyParts(s: real, breadth: real, turnover: real, f: real, over: real, g: real, k: real)
    requires Along(s, 0.003, 0.012, f) && Along(s, 0.025, 0.045, over)
    requires Along(breadth, 0.52, 0.72, g) && Along(turnover, 1.20, 2.00, k)
    ensures EarlyActivityScore(s, breadth, turnover) == 0.35 * (f * (1.0 - over)) + 0.35 * g + 0.30 * k
    ensures 0.0 <= EarlyActivityScore(s, breadth, turnover) <= 1.0
  {
    LinearAlong(s, 0.003, 0.012, f);
    LinearAlong(s, 0.025, 0.045, over);
    LinearAlong(breadth, 0.52, 0.72, g);
    LinearAlong(turnover, 1.20, 2.00, k);
    hide Linear, Along;
    assert FreshStart(s) == f * (1.0 - over);
    hide FreshStart;
  }

  /** Breadth counts for two fifths less when the head holds everything. */
  ghost function Damped(f: real, head: real): real { f * (1.0 - 0.40 * head) }

  lemma DampedInUnit(f: real, head: real)
    requires 0.0 <= f <= 1.0 && 0.0 <= head <= 1.0
    ensures 0.0 <= Damped(f, head) <= 1.0
  {
    ProductInUnit(f, 1.0 - 0.40 * head);
  }

  lemma WideParts(breadth: real, head: real, f: real)
    requires Along(breadth, 0.50, 0.75, f) && 0.0 <= head <= 1.0
    ensures Near(Value(Ppm(HealthyBreadthScore(breadth, head))), Damped(f, head))
  {
    LinearAlong(breadth, 0.50, 0.75, f);
    DampedInUnit(f, head);
    hide Linear, Along, Near, Ppm;
    assert HealthyBreadthScore(breadth, head) == Damped(f, head);
    hide HealthyBreadthScore, Damped;
    NearScore(Damped(f, head));
  }

  // ---- the Guardian metrics

  /** The five-minute return, and how much it grew on the one before. */
  ghost predicate RiseSays(b: BaseFacts, v: MetricValue, f: real, g: real) {
    && v != NotApplicable && (v.Value? <==> b.sector5m.Some? && b.previousSector5m.Some?)
    && (v.Value? && Along(b.sector5m.value, 0.015, 0.040, f)
        && Along(b.sector5m.value - b.previousSector5m.value, 0.008, 0.025, g) ==>
          Near(v, 0.65 * f + 0.35 * g))
  }

  lemma RiseOf(b: BaseFacts, f: real, g: real)
    ensures RiseSays(b, OrMissing(Rise(b)), f, g)
  {
    if Rise(b).Some? {
      var s, p := b.sector5m.value, b.previousSector5m.value;
      if Along(s, 0.015, 0.040, f) && Along(s - p, 0.008, 0.025, g) {
        LinearAlong(s, 0.015, 0.040, f);
        LinearAlong(s - p, 0.008, 0.025, g);
        hide Linear, Ppm, Along;
        PpmError(0.65 * f + 0.35 * g);
      }
    }
  }

  lemma RiseMeans(current: bool, x: MetricInput, f: real, g: real)
    requires Shows(current, x, RiseRate)
    ensures RiseSays(Facts(x), Reported(current, x, RiseRate), f, g)
  {
    ReportedIs(current, x, RiseRate);
    GuardianFormulas(ContextsOf(x), Facts(x), Scored(current, x));
    hide *;
    RiseOf(Facts(x), f, g);
  }

  /** The share of the largest members, and how far it is over its baseline. */
  ghost predicate HeadSays(b: BaseFacts, v: MetricValue, f: real, g: real, lift: real) {
    && v != NotApplicable
    && (v.Value? <==> b.headShare.Some? && b.headBaseline.Some? && b.headBaseline.value > 0.0)
    && (v.Value? && lift * b.headBaseline.value == b.headShare.value
        && Along(b.headShare.value, 0.35, 0.60, f) && Along(lift, 1.20, 1.80, g) ==>
          Near(v, 0.60 * f + 0.40 * g))
  }

  lemma HeadOf(b: BaseFacts, f: real, g: real, lift: real)
    ensures HeadSays(b, OrMissing(Head(b)), f, g, lift)
  {
    hide HeadScore, Ppm, Along, Near;
    if Head(b).Some? {
      var share, baseline := b.headShare.value, b.headBaseline.value;
      if lift * baseline == share && Along(share, 0.35, 0.60, f) && Along(lift, 1.20, 1.80, g) {
        HeadParts(share, baseline, lift, f, g);
      }
    }
  }

  lemma HeadMeans(current: bool, x: MetricInput, f: real, g: real, lift: real)
    requires Shows(current, x, HeadConcentration)
    ensures HeadSays(Facts(x), Reported(current, x, HeadConcentration), f, g, lift)
  {
    ReportedIs(current, x, HeadConcentration);
    GuardianFormulas(ContextsOf(x), Facts(x), Scored(current, x));
    hide *;
    HeadOf(Facts(x), f, g, lift);
  }

  /** How far one falls behind the rest and how few rise. */
  ghost predicate CoreSays(b: BaseFacts, v: MetricValue, f: real, g: real) {
    && v != NotApplicable
    && (v.Value? <==>
          b.core.Some? && b.core.value.core.Some? && b.core.value.noncore.Some? && b.core.value.breadth.Some?)
    && (v.Value? && Along(b.core.value.noncore.value - b.core.value.core.value, 0.005, 0.025, f)
        && Along(0.50 - b.core.value.breadth.value, 0.0, 0.30, g) ==>
          Near(v, 0.65 * f + 0.35 * g))
  }

  lemma CoreOf(b: BaseFacts, f: real, g: real)
    ensures CoreSays(b, OrMissing(CoreWeak(b)), f, g)
  {
    if CoreWeak(b).Some? {
      var lag, few := b.core.value.noncore.value - b.core.value.core.value, 0.50 - b.core.value.breadth.value;
      if Along(lag, 0.005, 0.025, f) && Along(few, 0.0, 0.30, g) {
        LinearAlong(lag, 0.005, 0.025, f);
        LinearAlong(few, 0.0, 0.30, g);
        hide Linear, Ppm, Along;
        PpmError(0.65 * f + 0.35 * g);
      }
    }
  }

  lemma CoreMeans(current: bool, x: MetricInput, f: real, g: real)
    requires Shows(current, x, CoreWeakening)
    ensures CoreSays(Facts(x), Reported(current, x, CoreWeakening), f, g)
  {
    ReportedIs(current, x, CoreWeakening);
    GuardianFormulas(ContextsOf(x), Facts(x), Scored(current, x));
    hide *;
    CoreOf(Facts(x), f, g);
  }

  /** How far breadth fell, and how low it is. */
  ghost predicate BreadthSays(b: BaseFacts, v: MetricValue, f: real, g: real) {
    && v != NotApplicable && (v.Value? <==> b.breadth5m.Some? && b.previousBreadth5m.Some?)
    && (v.Value? && Along(b.previousBreadth5m.value - b.breadth5m.value, 0.15, 0.40, f)
        && Along(0.45 - b.breadth5m.value, 0.0, 0.25, g) ==>
          Near(v, 0.60 * f + 0.40 * g))
  }

  lemma BreadthOf(b: BaseFacts, f: real, g: real)
    ensures BreadthSays(b, OrMissing(Collapsing(b)), f, g)
  {
    if Collapsing(b).Some? {
      var fall, low := b.previousBreadth5m.value - b.breadth5m.value, 0.45 - b.breadth5m.value;
      if Along(fall, 0.15, 0.40, f) && Along(low, 0.0, 0.25, g) {
        LinearAlong(fall, 0.15, 0.40, f);
        LinearAlong(low, 0.0, 0.25, g);
        hide Linear, Ppm, Along;
        PpmError(0.60 * f + 0.40 * g);
      }
    }
  }

  lemma BreadthMeans(current: bool, x: MetricInput, f: real, g: real)
    requires Shows(current, x, BreadthCollapse)
    ensures BreadthSays(Facts(x), Reported(current, x, BreadthCollapse), f, g)
  {
    ReportedIs(current, x, BreadthCollapse);
    GuardianFormulas(ContextsOf(x), Facts(x), Scored(current, x));
    hide *;
    BreadthOf(Facts(x), f, g);
  }

  /** How far the amount fell (`drop` of it is gone), and how many members do not trade. */
  ghost predicate LiquiditySays(b: BaseFacts, v: MetricValue, f: real, g: real, drop: real) {
    && v != NotApplicable
    && (v.Value? <==>
          b.amount5m.Some? && b.previousAmount.Some? && b.previousAmount.value > 0.0 && b.inactive.Some?)
    && (v.Value? && (1.0 - drop) * b.previousAmount.value == b.amount5m.value
        && Along(drop, 0.20, 0.60, f) && Along(b.inactive.value, 0.10, 0.35, g) ==>
          Near(v, 0.70 * f + 0.30 * g))
  }

  lemma LiquidityOf(b: BaseFacts, f: real, g: real, drop: real)
    ensures LiquiditySays(b, OrMissing(Liquidity(b)), f, g, drop)
  {
    hide LiquidityScore, Ppm, Along, Near;
    if Liquidity(b).Some? {
      var before, inactive := b.previousAmount.value, b.inactive.value;
      if (1.0 - drop) * before == b.amount5m.value && Along(drop, 0.20, 0.60, f) && Along(inactive, 0.10, 0.35, g) {
        LiquidityParts(b.amount5m.value, before, inactive, drop, f, g);
      }
    }
  }

  lemma LiquidityMeans(current: bool, x: MetricInput, f: real, g: real, drop: real)
    requires Shows(current, x, LiquidityWeakening)
    ensures LiquiditySays(Facts(x), Reported(current, x, LiquidityWeakening), f, g, drop)
  {
    ReportedIs(current, x, LiquidityWeakening);
    GuardianFormulas(ContextsOf(x), Facts(x), Scored(current, x));
    hide *;
    LiquidityOf(Facts(x), f, g, drop);
  }

  /** Rise and head as reported, with the turnover between them. */
  ghost predicate CrowdSays(b: BaseFacts, rise: MetricValue, head: MetricValue, v: MetricValue, f: real) {
    && v != NotApplicable && (v.Value? <==> rise.Value? && b.turnover.Some? && head.Value?)
    && (v.Value? && Along(b.turnover.value, 1.30, 2.50, f) ==>
          Near(v, 0.35 * Fraction(rise) + 0.35 * f + 0.30 * Fraction(head)))
  }

  lemma CrowdOf(b: BaseFacts, f: real)
    ensures CrowdSays(b, OrMissing(Rise(b)), OrMissing(Head(b)), OrMissing(Crowded(b)), f)
  {
    if Crowded(b).Some? {
      hide Rise, Head;
      if Along(b.turnover.value, 1.30, 2.50, f) {
        LinearAlong(b.turnover.value, 1.30, 2.50, f);
        hide Linear, Ppm, Along;
        PpmError(0.35 * FromPpm(Rise(b).value) + 0.35 * f + 0.30 * FromPpm(Head(b).value));
      }
    }
  }

  lemma CrowdMeans(current: bool, x: MetricInput, f: real)
    requires Shows(current, x, Crowding)
    ensures CrowdSays(Facts(x), Reported(current, x, RiseRate), Reported(current, x, HeadConcentration),
                      Reported(current, x, Crowding), f)
  {
    AlsoShows(current, x, Crowding);
    ReportedIs(current, x, Crowding);
    ReportedIs(current, x, RiseRate);
    ReportedIs(current, x, HeadConcentration);
    GuardianFormulas(ContextsOf(x), Facts(x), Scored(current, x));
    hide *;
    CrowdOf(Facts(x), f);
  }

  /** The collapse of breadth as reported, the fall of the sector, and the turnover. */
  ghost predicate StampedeSays(b: BaseFacts, collapse: MetricValue, v: MetricValue, f: real, g: real) {
    && v != NotApplicable && (v.Value? <==> b.sector5m.Some? && b.turnover.Some? && collapse.Value?)
    && (v.Value? && Along(-b.sector5m.value, 0.015, 0.040, f) && Along(b.turnover.value, 1.30, 2.50, g) ==>
          Near(v, 0.45 * Fraction(collapse) + 0.35 * f + 0.20 * g))
  }

  lemma StampedeOf(b: BaseFacts, f: real, g: real)
    ensures StampedeSays(b, OrMissing(Collapsing(b)), OrMissing(Stampede(b)), f, g)
  {
    if Stampede(b).Some? {
      hide Collapsing;
      if Along(-b.sector5m.value, 0.015, 0.040, f) && Along(b.turnover.value, 1.30, 2.50, g) {
        LinearAlong(-b.sector5m.value, 0.015, 0.040, f);
        LinearAlong(b.turnover.value, 1.30, 2.50, g);
        hide Linear, Ppm, Along;
        PpmError(0.45 * FromPpm(Collapsing(b).value) + 0.35 * f + 0.20 * g);
      }
    }
  }

  lemma StampedeMeans(current: bool, x: MetricInput, f: real, g: real)
    requires Shows(current, x, StampedeRisk)
    ensures StampedeSays(Facts(x), Reported(current, x, BreadthCollapse), Reported(current, x, StampedeRisk), f, g)
  {
    AlsoShows(current, x, StampedeRisk);
    ReportedIs(current, x, StampedeRisk);
    ReportedIs(current, x, BreadthCollapse);
    GuardianFormulas(ContextsOf(x), Facts(x), Scored(current, x));
    hide *;
    StampedeOf(Facts(x), f, g);
  }

  /** Rise, crowding and head as reported, and the day's return. */
  ghost predicate ChaseSays(b: BaseFacts, rise: MetricValue, crowding: MetricValue, head: MetricValue,
                            v: MetricValue, f: real) {
    && v != NotApplicable
    && (v.Value? <==> b.sectorDay.Some? && rise.Value? && crowding.Value? && head.Value?)
    && (v.Value? && Along(b.sectorDay.value, 0.025, 0.070, f) ==>
          Near(v, 0.35 * Fraction(rise) + 0.25 * Fraction(crowding) + 0.20 * Fraction(head) + 0.20 * f))
  }

  lemma ChaseOf(b: BaseFacts, f: real)
    ensures ChaseSays(b, OrMissing(Rise(b)), OrMissing(Crowded(b)), OrMissing(Head(b)), OrMissing(Chasing(b)), f)
  {
    if Chasing(b).Some? {
      hide Rise, Head, Crowded;
      if Along(b.sectorDay.value, 0.025, 0.070, f) {
        LinearAlong(b.sectorDay.value, 0.025, 0.070, f);
        hide Linear, Ppm, Along;
        PpmError(0.35 * FromPpm(Rise(b).value) + 0.25 * FromPpm(Crowded(b).value)
                 + 0.20 * FromPpm(Head(b).value) + 0.20 * f);
      }
    }
  }

  lemma ChaseMeans(current: bool, x: MetricInput, f: real)
    requires Shows(current, x, T1Chasing)
    ensures ChaseSays(Facts(x), Reported(current, x, RiseRate), Reported(current, x, Crowding),
                      Reported(current, x, HeadConcentration), Reported(current, x, T1Chasing), f)
  {
    AlsoShows(current, x, T1Chasing);
    ReportedIs(current, x, T1Chasing);
    ReportedIs(current, x, RiseRate);
    ReportedIs(current, x, Crowding);
    ReportedIs(current, x, HeadConcentration);
    GuardianFormulas(ContextsOf(x), Facts(x), Scored(current, x));
    hide *;
    ChaseOf(Facts(x), f);
  }

  // ---- the Scout metrics

  /** A start that is not overextended (`over`), breadth, and turnover. */
  ghost predicate EarlySays(b: BaseFacts, v: MetricValue, f: real, over: real, g: real, k: real) {
    && v != NotApplicable && (v.Value? <==> b.sector5m.Some? && b.breadth5m.Some? && b.turnover.Some?)
    && (v.Value? && Along(b.sector5m.value, 0.003, 0.012, f) && Along(b.sector5m.value, 0.025, 0.045, over)
        && Along(b.breadth5m.value, 0.52, 0.72, g) && Along(b.turnover.value, 1.20, 2.00, k) ==>
          Near(v, 0.35 * (f * (1.0 - over)) + 0.35 * g + 0.30 * k))
  }

  lemma EarlyOf(b: BaseFacts, f: real, over: real, g: real, k: real)
    ensures EarlySays(b, OrMissing(EarlyStart(b)), f, over, g, k)
  {
    if EarlyStart(b).Some? {
      var s := b.sector5m.value;
      if Along(s, 0.003, 0.012, f) && Along(s, 0.025, 0.045, over) && Along(b.breadth5m.value, 0.52, 0.72, g)
         && Along(b.turnover.value, 1.20, 2.00, k) {
        EarlyParts(s, b.breadth5m.value, b.turnover.value, f, over, g, k);
        hide Linear, Ppm, Along, EarlyActivityScore;
        PpmError(0.35 * (f * (1.0 - over)) + 0.35 * g + 0.30 * k);
      }
    }
  }

  lemma EarlyMeans(current: bool, x: MetricInput, f: real, over: real, g: real, k: real)
    requires Shows(current, x, EarlyActivity)
    ensures EarlySays(Facts(x), Reported(current, x, EarlyActivity), f, over, g, k)
  {
    ReportedIs(current, x, EarlyActivity);
    ScoutFormulas(ContextsOf(x), Facts(x), Scored(current, x));
    hide *;
    EarlyOf(Facts(x), f, over, g, k);
  }

  /** Breadth, damped by the head as reported. */
  ghost predicate WideSays(b: BaseFacts, head: MetricValue, v: MetricValue, f: real) {
    && v != NotApplicable && (v.Value? <==> b.breadth5m.Some? && head.Value?)
    && (v.Value? && Along(b.breadth5m.value, 0.50, 0.75, f) ==> Near(v, Damped(f, Fraction(head))))
  }

  lemma WideOf(b: BaseFacts, f: real)
    ensures WideSays(b, OrMissing(Head(b)), OrMissing(WideBreadth(b)), f)
  {
    hide HealthyBreadthScore, Ppm, Along, Near, Head, Damped;
    if WideBreadth(b).Some? {
      var h := FromPpm(Head(b).value);
      if Along(b.breadth5m.value, 0.50, 0.75, f) {
        WideParts(b.breadth5m.value, h, f);
        assert Fraction(OrMissing(Head(b))) == h;
      }
    }
  }

  lemma WideMeans(current: bool, x: MetricInput, f: real)
    requires Shows(current, x, HealthyBreadth)
    ensures WideSays(Facts(x), Reported(current, x, HeadConcentration), Reported(current, x, HealthyBreadth), f)
  {
    AlsoShows(current, x, HealthyBreadth);
    ReportedIs(current, x, HealthyBreadth);
    ReportedIs(current, x, HeadConcentration);
    ScoutFormulas(ContextsOf(x), Facts(x), Scored(current, x));
    GuardianFormulas(ContextsOf(x), Facts(x), Scored(current, x));
    hide *;
    WideOf(Facts(x), f);
  }

  /** How far the sector is ahead of the market, over five and fifteen minutes. */
  ghost predicate AheadSays(b: BaseFacts, v: MetricValue, f: real, g: real) {
    && v != NotApplicable
    && (v.Value? <==> b.sector5m.Some? && b.sector15m.Some? && b.market5m.Some? && b.market15m.Some?)
    && (v.Value? && Along(b.sector5m.value - b.market5m.value, 0.002, 0.015, f)
        && Along(b.sector15m.value - b.market15m.value, 0.003, 0.025, g) ==>
          Near(v, 0.60 * f + 0.40 * g))
  }

  lemma AheadOf(b: BaseFacts, f: real, g: real)
    ensures AheadSays(b, OrMissing(Strength(b)), f, g)
  {
    if Strength(b).Some? {
      var five, fifteen := b.sector5m.value - b.market5m.value, b.sector15m.value - b.market15m.value;
      if Along(five, 0.002, 0.015, f) && Along(fifteen, 0.003, 0.025, g) {
        LinearAlong(five, 0.002, 0.015, f);
        LinearAlong(fifteen, 0.003, 0.025, g);
        hide Linear, Ppm, Along;
        PpmError(0.60 * f + 0.40 * g);
      }
    }
  }

  lemma AheadMeans(current: bool, x: MetricInput, f: real, g: real)
    requires Shows(current, x, RelativeStrength)
    ensures AheadSays(Facts(x), Reported(current, x, RelativeStrength), f, g)
  {
    ReportedIs(current, x, RelativeStrength);
    ScoutFormulas(ContextsOf(x), Facts(x), Scored(current, x));
    hide *;
    AheadOf(Facts(x), f, g);
  }

  /** Turnover over its baseline. */
  ghost predicate TurnoverSays(b: BaseFacts, v: MetricValue, f: real) {
    && v != NotApplicable && (v.Value? <==> b.turnover.Some?)
    && (v.Value? && Along(b.turnover.value, 1.10, 2.20, f) ==> Near(v, f))
  }

  lemma TurnoverOf(b: BaseFacts, f: real)
    ensures TurnoverSays(b, OrMissing(TurnoverPpm(b)), f)
  {
    if TurnoverPpm(b).Some? && Along(b.turnover.value, 1.10, 2.20, f) {
      LinearAlong(b.turnover.value, 1.10, 2.20, f);
      hide Linear, Ppm, Along;
      PpmError(f);
    }
  }

  lemma TurnoverMeans(current: bool, x: MetricInput, f: real)
    requires Shows(current, x, TurnoverConfirmation)
    ensures TurnoverSays(Facts(x), Reported(current, x, TurnoverConfirmation), f)
  {
    ReportedIs(current, x, TurnoverConfirmation);
    ScoutFormulas(ContextsOf(x), Facts(x), Scored(current, x));
    hide *;
    TurnoverOf(Facts(x), f);
  }

  /** Evidence of an early signal that applies: official, qualifying, of the day, at most thirty minutes old. */
  ghost predicate EarlyApplies(x: MetricInput) {
    && x.early.Some? && x.early.value.official && x.early.value.qualifying
    && x.early.value.date == x.tradingDate && 0 <= x.early.value.minutesAgo <= 30
  }

  /** How far return, breadth and turnover fell behind the early signal. */
  ghost predicate EarlyFailureSays(x: MetricInput, b: BaseFacts, v: MetricValue, f: real, g: real, k: real) {
    && (v == NotApplicable <==> !EarlyApplies(x))
    && (v.Value? <==> EarlyApplies(x) && b.sectorDay.Some? && b.breadthDay.Some? && b.turnover.Some?)
    && (v.Value? && Along(x.early.value.dayReturn - b.sectorDay.value, 0.010, 0.035, f)
        && Along(x.early.value.breadth - b.breadthDay.value, 0.15, 0.40, g)
        && Along(x.early.value.turnover - b.turnover.value, 0.30, 1.00, k) ==>
          Near(v, 0.45 * f + 0.35 * g + 0.20 * k))
  }

  lemma EarlyFailureOf(x: MetricInput, b: BaseFacts, f: real, g: real, k: real)
    ensures var c := ContextsOf(x);
            EarlyFailureSays(
              x, b, if c.early.Some? then OrMissing(EarlyFailure(c.early.value, b)) else NotApplicable, f, g, k)
  {
    hide EarlyFailureScore, Ppm, Along, Near;
    var c := ContextsOf(x);
    if c.early.Some? && EarlyFailure(c.early.value, b).Some? {
      var e := c.early.value;
      var r, w, t := e.dayReturn - b.sectorDay.value, e.breadth - b.breadthDay.value, e.turnover - b.turnover.value;
      if Along(r, 0.010, 0.035, f) && Along(w, 0.15, 0.40, g) && Along(t, 0.30, 1.00, k) {
        EarlyFailureParts(r, w, t, f, g, k);
      }
    }
  }

  lemma EarlyFailureParts(r: real, w: real, t: real, f: real, g: real, k: real)
    requires Along(r, 0.010, 0.035, f) && Along(w, 0.15, 0.40, g) && Along(t, 0.30, 1.00, k)
    ensures Near(Value(Ppm(EarlyFailureScore(r, w, t))), 0.45 * f + 0.35 * g + 0.20 * k)
  {
    LinearAlong(r, 0.010, 0.035, f);
    LinearAlong(w, 0.15, 0.40, g);
    LinearAlong(t, 0.30, 1.00, k);
    hide Linear, Ppm, Along;
    NearScore(0.45 * f + 0.35 * g + 0.20 * k);
  }

  lemma EarlyFailureMeans(current: bool, x: MetricInput, f: real, g: real, k: real)
    requires Shows(current, x, EarlySignalFailure)
    ensures EarlyFailureSays(x, Facts(x), Reported(current, x, EarlySignalFailure), f, g, k)
  {
    ReportedIs(current, x, EarlySignalFailure);
    GuardianFormulas(ContextsOf(x), Facts(x), Scored(current, x));
    hide *;
    EarlyFailureOf(x, Facts(x), f, g, k);
  }

  /** The return of a mapped fund, by itself and over the market. */
  ghost predicate EtfSays(etf: Context, market: Option<real>, v: MetricValue, f: real, g: real) {
    && (v == NotApplicable <==> etf.NoContext?)
    && (v.Value? <==> etf.MappedContext? && etf.return5m.Some? && market.Some?)
    && (v.Value? && Along(etf.return5m.value, 0.001, 0.010, f)
        && Along(etf.return5m.value - market.value, 0.001, 0.008, g) ==>
          Near(v, 0.55 * f + 0.45 * g))
  }

  lemma EtfOf(etf: Context, market: Option<real>, f: real, g: real)
    ensures EtfSays(etf, market, EtfValue(etf, market), f, g)
  {
    if EtfValue(etf, market).Value? {
      var r, ahead := etf.return5m.value, etf.return5m.value - market.value;
      if Along(r, 0.001, 0.010, f) && Along(ahead, 0.001, 0.008, g) {
        LinearAlong(r, 0.001, 0.010, f);
        LinearAlong(ahead, 0.001, 0.008, g);
        hide Linear, Ppm, Along;
        NearScore(0.55 * f + 0.45 * g);
      }
    }
  }

  lemma EtfMeans(current: bool, x: MetricInput, f: real, g: real)
    requires Shows(current, x, EtfConfirmation)
    ensures EtfSays(x.etf, Facts(x).market5m, Reported(current, x, EtfConfirmation), f, g)
  {
    ReportedIs(current, x, EtfConfirmation);
    ScoutFormulas(ContextsOf(x), Facts(x), Scored(current, x));
    ContextsAsGiven(x);
    hide *;
    EtfOf(x.etf, Facts(x).market5m, f, g);
  }

  lemma ContextsAsGiven(x: MetricInput)
    ensures ContextsOf(x).etf == x.etf && ContextsOf(x).style == x.style
  {
  }

  /** The style's return over the market. */
  ghost predicate StyleSays(style: Context, market: Option<real>, v: MetricValue, f: real) {
    && (v == NotApplicable <==> style.NoContext?)
    && (v.Value? <==> style.MappedContext? && style.return5m.Some? && market.Some?)
    && (v.Value? && Along(style.return5m.value - market.value, 0.001, 0.010, f) ==> Near(v, f))
  }

  lemma StyleOf(style: Context, market: Option<real>, f: real)
    ensures StyleSays(style, market, StyleValue(style, market), f)
  {
    if StyleValue(style, market).Value? && Along(style.return5m.value - market.value, 0.001, 0.010, f) {
      LinearAlong(style.return5m.value - market.value, 0.001, 0.010, f);
      hide Linear, Ppm, Along;
      NearScore(f);
    }
  }

  lemma StyleMeans(current: bool, x: MetricInput, f: real)
    requires Shows(current, x, StyleSupport)
    ensures StyleSays(x.style, Facts(x).market5m, Reported(current, x, StyleSupport), f)
  {
    ReportedIs(current, x, StyleSupport);
    ScoutFormulas(ContextsOf(x), Facts(x), Scored(current, x));
    ContextsAsGiven(x);
    hide *;
    StyleOf(x.style, Facts(x).market5m, f);
  }

  /** Low crowding is what crowding leaves of the whole. */
  lemma LowCrowdingMeans(current: bool, x: MetricInput)
    requires Shows(current, x, LowCrowding)
    ensures var low, crowding := Reported(current, x, LowCrowding), Reported(current, x, Crowding);
            && low != NotApplicable && (low.Value? <==> crowding.Value?)
            && (low.Value? ==> low.ppm + crowding.ppm == 1_000_000)
  {
    AlsoShows(current, x, LowCrowding);
    ReportedIs(current, x, LowCrowding);
    ReportedIs(current, x, Crowding);
    ScoutFormulas(ContextsOf(x), Facts(x), Scored(current, x));
    GuardianFormulas(ContextsOf(x), Facts(x), Scored(current, x));
    hide Evaluation, BaseOf, ValidSector, Facts, Reported, Crowded, ScoreOf, ScoresOf, ContextsOf, Continuity, Shows;
  }

  // ---- continuity

  /** How steadily a value rose over three observations: wholly, with one setback within tolerance, or not. */
  ghost predicate Steady(a: real, b: real, c: real, floor: real, tolerance: real, s: real) {
    var above := a > floor && b > floor && c > floor;
    if above && a <= b <= c then s == 1.0
    else if above && a <= c && ((b < a && a - b <= tolerance) || (c < b && b - c <= tolerance)) then s == 0.5
    else s == 0.0
  }

  lemma SteadyExactly(a: real, b: real, c: real, floor: real, tolerance: real, s: real)
    requires Steady(a, b, c, floor, tolerance, s)
    ensures ContinuityComponent(a, b, c, floor, tolerance) == s
  {
  }

  /** Earlier minutes first, and within a minute earlier observations. */
  ghost predicate Chronological(o: seq<Observation>) {
    forall i, j :: 0 <= i < j < |o| ==>
      o[i].minute < o[j].minute || (o[i].minute == o[j].minute && o[i].observedAt < o[j].observedAt)
  }

  /** Three FIT observations of one day with known values, apart in time and spanning ten market minutes. */
  ghost predicate Observed(o: seq<Observation>) {
    && |o| == 3
    && (forall i, j :: 0 <= i < j < 3 ==>
          o[i].uid != o[j].uid && o[i].observedAt != o[j].observedAt && o[i].date == o[j].date)
    && (forall i :: 0 <= i < 3 ==>
          o[i].fitness == Fit && o[i].strength.Some? && o[i].breadth.Some? && o[i].turnover.Some?)
    && o[2].minute - o[0].minute >= 10
  }

  ghost predicate ContinuitySays(current: bool, o: seq<Observation>, v: MetricValue, s: real, w: real, t: real) {
    && v != NotApplicable && (v.Value? <==> current && Observed(o))
    && (v.Value?
        && Steady(o[0].strength.value, o[1].strength.value, o[2].strength.value, 0.0, 0.0015, s)
        && Steady(o[0].breadth.value, o[1].breadth.value, o[2].breadth.value, 0.50, 0.03, w)
        && Steady(o[0].turnover.value, o[1].turnover.value, o[2].turnover.value, 1.0, 0.10, t) ==>
          Near(v, 0.40 * s + 0.35 * w + 0.25 * t))
  }

  lemma InOrder(x: MetricInput, o: seq<Observation>)
    requires Chronological(o) && multiset(o) == multiset(x.observations)
    ensures OrderedObservations(x.observations) == o
  {
    assert SortedBy(MinuteFirst, o);
    forall a, b | a in o && b in o && MinuteFirst(a, b) && MinuteFirst(b, a) ensures a == b {
      var i :| 0 <= i < |o| && o[i] == a;
      var j :| 0 <= j < |o| && o[j] == b;
    }
    assert NoTies(MinuteFirst, o);
    StringOrder();
    assert TotalPreorder(MinuteFirst);
    SortBySorted(MinuteFirst, x.observations);
    SortedUnique(MinuteFirst, o, OrderedObservations(x.observations));
  }

  lemma ContinuityOf(o: seq<Observation>, s: real, w: real, t: real)
    requires |o| == 3
    ensures ContinuitySays(true, o, OrMissing(ContinuityInOrder(o)), s, w, t)
  {
    if ContinuityInOrder(o).Some? {
      assert Observed(o);
      if Steady(o[0].strength.value, o[1].strength.value, o[2].strength.value, 0.0, 0.0015, s)
         && Steady(o[0].breadth.value, o[1].breadth.value, o[2].breadth.value, 0.50, 0.03, w)
         && Steady(o[0].turnover.value, o[1].turnover.value, o[2].turnover.value, 1.0, 0.10, t) {
        SteadyExactly(o[0].strength.value, o[1].strength.value, o[2].strength.value, 0.0, 0.0015, s);
        SteadyExactly(o[0].breadth.value, o[1].breadth.value, o[2].breadth.value, 0.50, 0.03, w);
        SteadyExactly(o[0].turnover.value, o[1].turnover.value, o[2].turnover.value, 1.0, 0.10, t);
        NearScore(0.40 * s + 0.35 * w + 0.25 * t);
      }
    }
  }

  /** Version 2 of the rules scores three observations, in whatever order they are given. */
  lemma ContinuityMeans(current: bool, x: MetricInput, o: seq<Observation>, s: real, w: real, t: real)
    requires Shows(current, x, ContinuityStrengthening)
    requires Chronological(o) && multiset(o) == multiset(x.observations)
    ensures ContinuitySays(current, o, Reported(current, x, ContinuityStrengthening), s, w, t)
  {
    ReportedIs(current, x, ContinuityStrengthening);
    ScoutFormulas(ContextsOf(x), Facts(x), Scored(current, x));
    InOrder(x, o);
    PermutationMembers(o, x.observations);
    hide Evaluation, BaseOf, ValidSector, Facts, Reported, ScoreOf, ScoresOf, ContextsOf, Shows, ContinuityInOrder, Near,
         Steady, OrderedObservations;
    if |o| == 3 { ContinuityOf(o, s, w, t); }
  }

  // ---- the ends, spelled out for one of them

  lemma NearEnds(v: MetricValue)
    ensures Near(v, 1.0) ==> v == Value(1_000_000)
    ensures Near(v, 0.0) ==> v == Value(0)
  {
  }

  /** A full collapse of breadth and none; every other metric has its ends in the same way. */
  lemma BreadthEnds(current: bool, x: MetricInput)
    requires Shows(current, x, BreadthCollapse)
    ensures var b, v := Facts(x), Reported(current, x, BreadthCollapse);
            v.Value? ==>
              && b.breadth5m.Some? && b.previousBreadth5m.Some?
              && var now, before := b.breadth5m.value, b.previousBreadth5m.value;
                 && (before - now >= 0.40 && now <= 0.20 ==> v == Value(1_000_000))
                 && (before - now <= 0.15 && now >= 0.45 ==> v == Value(0))
  {
    BreadthMeans(current, x, 1.0, 1.0);
    BreadthMeans(current, x, 0.0, 0.0);
    NearEnds(Reported(current, x, BreadthCollapse));
    hide Evaluation, BaseOf, ValidSector, Facts, Reported, Shows, Near;
  }
}
