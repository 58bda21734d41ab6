/** The producer itself: loops that append and a dictionary of values updated in place. */
module MarketMetrics {
  import opened Wrappers
  import opened Sorting
  import opened Sequences
  import opened Text
  import opened Domain
  import opened OrderStatistics
  import opened HeadShare
  import opened MetricFormulas
  import opened MetricProducer

  lemma FiguresSnoc(figures: seq<(real, real)>, f: (real, real))
    ensures Firsts(figures + [f]) == Firsts(figures) + [f.0]
    ensures Seconds(figures + [f]) == Seconds(figures) + [f.1]
  {
  }

  /** Walks the windows in date order, skipping those that do not cover every member. */
  method Baselines(windows: seq<Window>, uids: seq<string>)
    returns (turnover: Option<real>, head: Option<real>)
    ensures (turnover, head) == HistoricalBaselines(windows, uids)
  {
    if uids == [] {
      return None, None;
    }
    hide WindowFigures;
    var ordered := SortBy(DateFirst, windows);
    var amounts, shares: seq<real> := [], [];
    ghost var figures: seq<(real, real)> := [];
    for i := 0 to |ordered|
      invariant figures == FiguresOf(ordered[..i], uids)
      invariant amounts == Firsts(figures) && shares == Seconds(figures)
    {
      assert ordered[..i + 1][..i] == ordered[..i];
      var window := WindowFigures(ordered[i], uids);
      if window.Some? {
        FiguresSnoc(figures, window.value);
        amounts := amounts + [window.value.0];
        shares := shares + [window.value.1];
        figures := figures + [window.value];
      }
    }
    assert ordered[..|ordered|] == ordered;
    if |amounts| < 3 {
      return None, None;
    }
    return Median(amounts), Median(shares);
  }

  method CollectUnfit(x: QualityInputs, active: nat, valid: nat) returns (reasons: seq<Reason>)
    ensures reasons == UnfitReasons(x, active, valid)
  {
    hide Coverage;
    reasons := [];
    if active == 0 { reasons := reasons + [NoTradableMembers]; }
    if Coverage(active, valid) < 0.70 { reasons := reasons + [QuoteCoverageUnfit]; }
    if valid < 3 { reasons := reasons + [InsufficientValidMembers]; }
    if x.history < 0.70 { reasons := reasons + [HistoricalCoverageUnfit]; }
    if !x.providerFit { reasons := reasons + [PrimaryProviderUnfit]; }
  }

  method CollectLimited(x: QualityInputs, active: nat, valid: nat) returns (reasons: seq<Reason>)
    ensures reasons == LimitedReasons(x, active, valid)
  {
    hide Coverage;
    reasons := [];
    if Coverage(active, valid) < 0.85 { reasons := reasons + [QuoteCoverageLimited]; }
    if x.history < 0.80 { reasons := reasons + [HistoricalCoverageLimited]; }
    if x.providerLimited { reasons := reasons + [PrimaryProviderLimited]; }
    if !x.contextFit { reasons := reasons + [ContextLimited]; }
    if reasons != [] || valid < 5 {
      if valid < 5 { reasons := reasons + [ValidMemberCountLimited]; }
    }
  }

  // ---- what the level and its reasons mean

  /** Seven tenths of the tradable members quoted, at least three, and history and provider in order. */
  predicate Usable(x: QualityInputs, active: nat, valid: nat) {
    x.evaluable && active > 0 && 10 * valid >= 7 * active && valid >= 3 && x.history >= 0.70 && x.providerFit
  }

  predicate Unrestricted(x: QualityInputs, active: nat, valid: nat) {
    && Usable(x, active, valid)
    && 20 * valid >= 17 * active && valid >= 5 && x.history >= 0.80 && !x.providerLimited && x.contextFit
  }

  /** What a reason says of the input. */
  predicate Says(r: Reason, x: QualityInputs, active: nat, valid: nat) {
    match r
    case MarketPhaseNotEvaluable => !x.evaluable
    case NoTradableMembers => active == 0
    case QuoteCoverageUnfit => active == 0 || 10 * valid < 7 * active
    case InsufficientValidMembers => valid < 3
    case HistoricalCoverageUnfit => x.history < 0.70
    case PrimaryProviderUnfit => !x.providerFit
    case QuoteCoverageLimited => active == 0 || 20 * valid < 17 * active
    case HistoricalCoverageLimited => x.history < 0.80
    case PrimaryProviderLimited => x.providerLimited
    case ContextLimited => !x.contextFit
    case ValidMemberCountLimited => valid < 5
  }

  const UNFIT_REASONS := {NoTradableMembers, QuoteCoverageUnfit, InsufficientValidMembers, HistoricalCoverageUnfit,
                          PrimaryProviderUnfit}
  const LIMITED_REASONS := {QuoteCoverageLimited, HistoricalCoverageLimited, PrimaryProviderLimited, ContextLimited,
                            ValidMemberCountLimited}

  /** The reasons a level is explained by: the phase alone if it is not evaluable. */
  ghost function ReasonsFor(x: QualityInputs, fitness: Fitness): set<Reason> {
    if !x.evaluable then {MarketPhaseNotEvaluable}
    else if fitness == Unfit then UNFIT_REASONS else LIMITED_REASONS
  }

  /** The level follows exactly from the inputs; each reason that applies is given once, in alphabetical order. */
  ghost predicate Graded(q: Quality, x: QualityInputs, active: nat, valid: nat) {
    && (q.fitness == Unfit <==> !Usable(x, active, valid))
    && (q.fitness == Fit <==> Unrestricted(x, active, valid))
    && (q.fitness == FitWithLimitations <==> Usable(x, active, valid) && !Unrestricted(x, active, valid))
    && (forall r :: r in q.reasons <==> r in ReasonsFor(x, q.fitness) && Says(r, x, active, valid))
    && (forall i, j :: 0 <= i < j < |q.reasons| ==> Rank(q.reasons[i]) < Rank(q.reasons[j]))
  }

  lemma CoverageExactly(active: nat, valid: nat)
    ensures Coverage(active, valid) < 0.70 <==> active == 0 || 10 * valid < 7 * active
    ensures Coverage(active, valid) < 0.85 <==> active == 0 || 20 * valid < 17 * active
  {
    if active > 0 {
      QuotientBelow(valid as real, active as real, 0.70);
      QuotientBelow(valid as real, active as real, 0.85);
    }
  }

  lemma QuotientBelow(v: real, a: real, t: real)
    requires a > 0.0
    ensures v / a < t <==> v < t * a
  {
    var c := v / a;
    assert c * a == v;
    if c < t { ProductBelow(c, t, a); } else { ProductBelow(t, c, a); }
  }

  lemma ProductBelow(c: real, t: real, a: real)
    requires a > 0.0 && c <= t
    ensures c * a <= t * a && (c < t ==> c * a < t * a)
  {
    assert (t - c) * a >= 0.0;
    if c < t { assert (t - c) * a > 0.0; }
  }

  lemma UnfitExactly(x: QualityInputs, active: nat, valid: nat)
    ensures forall r :: r in UnfitReasons(x, active, valid) <==> r in UNFIT_REASONS && Says(r, x, active, valid)
    ensures NoRepeats(UnfitReasons(x, active, valid))
  {
    CoverageExactly(active, valid);
    hide Coverage;
  }

  lemma LimitedExactly(x: QualityInputs, active: nat, valid: nat)
    ensures forall r :: r in LimitedReasons(x, active, valid) <==> r in LIMITED_REASONS && Says(r, x, active, valid)
    ensures NoRepeats(LimitedReasons(x, active, valid))
  {
    CoverageExactly(active, valid);
    hide Coverage;
  }

  /** Sorting different reasons gives them in strictly alphabetical order. */
  lemma SortedReasons(reasons: seq<Reason>)
    requires NoRepeats(reasons)
    ensures var sorted := SortBy(Alphabetical, reasons);
            && (forall r :: r in sorted <==> r in reasons)
            && forall i, j :: 0 <= i < j < |sorted| ==> Rank(sorted[i]) < Rank(sorted[j])
  {
    var sorted := SortBy(Alphabetical, reasons);
    SortBySorted(Alphabetical, reasons);
    PermutationMembers(sorted, reasons);
    NoRepeatsPermutation(reasons, sorted);
    forall i, j | 0 <= i < j < |sorted| ensures Rank(sorted[i]) < Rank(sorted[j]) {
      assert Alphabetical(sorted[i], sorted[j]) && sorted[i] != sorted[j];
    }
  }

  lemma LevelExactly(x: QualityInputs, active: nat, valid: nat)
    ensures x.evaluable && UnfitReasons(x, active, valid) == [] <==> Usable(x, active, valid)
    ensures Usable(x, active, valid) && LimitedReasons(x, active, valid) == [] <==> Unrestricted(x, active, valid)
  {
    CoverageExactly(active, valid);
    hide Coverage;
  }

  lemma PhaseAlone(x: QualityInputs, active: nat, valid: nat)
    requires !x.evaluable
    ensures Says(MarketPhaseNotEvaluable, x, active, valid)
    ensures !Usable(x, active, valid) && !Unrestricted(x, active, valid)
  {
  }

  lemma QualityExactly(x: QualityInputs, active: nat, valid: nat)
    ensures Graded(QualityOf(x, active, valid), x, active, valid)
  {
    LevelExactly(x, active, valid);
    hide Coverage, Ppm, SortBy, UnfitReasons, LimitedReasons, Rank, Usable, Unrestricted, Says;
    if !x.evaluable {
      PhaseAlone(x, active, valid);
    } else {
      UnfitExactly(x, active, valid);
      LimitedExactly(x, active, valid);
      SortedReasons(UnfitReasons(x, active, valid));
      SortedReasons(LimitedReasons(x, active, valid));
    }
  }

  /** More quotes, more history and fitter sources never lower the level. */
  lemma QualityMonotone(x: QualityInputs, y: QualityInputs, active: nat, valid: nat, more: nat)
    requires (x.evaluable ==> y.evaluable) && x.history <= y.history && valid <= more
    requires (x.providerFit ==> y.providerFit) && (x.contextFit ==> y.contextFit)
    requires y.providerLimited ==> x.providerLimited
    ensures var before, after := QualityOf(x, active, valid).fitness, QualityOf(y, active, more).fitness;
            (before == Fit ==> after == Fit) && (before != Unfit ==> after != Unfit)
  {
    QualityExactly(x, active, valid);
    QualityExactly(y, active, more);
    hide QualityOf, Rank, Says;
  }

  /** The first list of reasons that is not empty decides the level. */
  method Assess(x: QualityInputs, active: nat, valid: nat) returns (q: Quality)
    ensures q == QualityOf(x, active, valid)
    ensures Graded(q, x, active, valid)
  {
    QualityExactly(x, active, valid);
    hide Coverage, Ppm, SortBy, UnfitReasons, LimitedReasons;
    var quote, history := Ppm(Coverage(active, valid)), Ppm(x.history);
    if !x.evaluable {
      return Quality(Unfit, quote, history, valid, active, [MarketPhaseNotEvaluable]);
    }
    var unfit := CollectUnfit(x, active, valid);
    if unfit != [] {
      return Quality(Unfit, quote, history, valid, active, SortBy(Alphabetical, unfit));
    }
    var limited := CollectLimited(x, active, valid);
    if limited != [] {
      return Quality(FitWithLimitations, quote, history, valid, active, SortBy(Alphabetical, limited));
    }
    return Quality(Fit, quote, history, valid, active, []);
  }

  function EmptyValues(c: Contexts): map<MetricCode, MetricValue> {
    map code | code in ALL_CODES :: Empty(c, code)
  }

  /** Drops the values of `codes`, keeping what is missing or not applicable as it is. */
  function RemoveValues(values: map<MetricCode, MetricValue>, codes: set<MetricCode>)
    : map<MetricCode, MetricValue>
  {
    map code | code in values :: if code in codes && values[code].Value? then Missing else values[code]
  }

  class MarketMetricProducer {
    const current: bool

    constructor (current: bool)
      ensures this.current == current
    {
      this.current := current;
    }

    /** Fills in what was calculated, then removes what the quality does not allow. */
    method Gated(c: Contexts, scores: Option<Scores>, fitness: Fitness)
      returns (values: map<MetricCode, MetricValue>)
      ensures values == GatedValues(c, scores, fitness)
    {
      hide Empty, ScoreOf;
      values := EmptyValues(c);
      if scores.Some? {
        values := map code | code in ALL_CODES :: ScoreOf(scores.value, code);
      }
      if fitness == Unfit {
        values := RemoveValues(values, ALL_CODES);
      } else if fitness == FitWithLimitations {
        values := RemoveValues(values, SCOUT_CODES);
      }
    }

    method Evaluate(x: MetricInput) returns (out: MetricOutput)
      requires ValidInput(x)
      ensures out == Evaluation(current, x)
    {
      hide QualityOf, SectorMembers, EvidenceOf, CalculatedScores, ContextsOf, GatedValues, Filter;
      var quality := Assess(QualityInputsOf(x), |Filter(Active, SectorMembers(x))|, |ValidSector(x)|);
      var values := Gated(ContextsOf(x), CalculatedScores(current, x), quality.fitness);
      out := MetricOutput(x.sectorUid, values, quality, EvidenceOf(current, x, values));
    }
  }

  // ---- what the gate guarantees

  lemma QualityLevels(x: MetricInput)
    ensures SectorQuality(x).fitness != UnknownFitness
  {
    hide SectorMembers, SortBy, Ppm, Coverage, Filter;
  }

  /**
   * Every code is reported, nothing is valued on an UNFIT input, and a Scout value appears
   * only on a FIT one. Values are whole PPM by their type.
   */
  lemma GateGuarantees(current: bool, x: MetricInput)
    ensures var out := Evaluation(current, x);
            && out.values.Keys == ALL_CODES
            && (ScoutMetrics(out) != map[] ==> out.quality.fitness == Fit)
            && (GuardianMetrics(out) != map[] ==> out.quality.fitness != Unfit)
  {
    QualityLevels(x);
    hide SectorQuality, CalculatedScores, ContextsOf, EvidenceOf, ScoreOf, Empty;
    var out := Evaluation(current, x);
    if ScoutMetrics(out) != map[] {
      var code :| code in ScoutMetrics(out);
      assert out.values[code].Value?;
    }
    if GuardianMetrics(out) != map[] {
      var code :| code in GuardianMetrics(out);
      assert out.values[code].Value?;
    }
  }

  // ---- the chain of rounded metrics inside the producer

  function ChainOf(b: BaseFacts): ChainInput
    requires Chasing(b).Some?
  {
    ChainInput(b.sectorDay.value, b.sector5m.value, b.previousSector5m.value, b.turnover.value,
               b.headShare.value, b.headBaseline.value)
  }

  /** Rise, head and crowding enter the producer's chasing risk rounded; together they move it by less than one PPM. */
  lemma ProducerDrift(b: BaseFacts)
    requires Chasing(b).Some?
    ensures ChainOf(b).baseline > 0.0 && Chasing(b).value == ChasingPpm(ChainOf(b))
    ensures -0.98125 <= Chasing(b).value as real - ExactChasing(ChainOf(b)) * PPM <= 0.98125
  {
    hide RiseScore, HeadScore, CrowdingScore, ChasingScore, Ppm;
    NestedRoundingDrift(ChainOf(b));
  }
}
