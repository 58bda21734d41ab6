/**
 * One sector evaluation: from canonical member quotes to eighteen gated PPM metrics, the
 * three-level quality and the evidence payload. Decimals are reals.
 */
module MetricProducer {
  import opened Wrappers
  import opened Sorting
  import opened Sequences
  import opened Text
  import opened Domain
  import opened OrderStatistics
  import opened HeadShare
  import opened MetricFormulas

  datatype QuoteStatus = ValidQuote | MissingQuote | SuspendedQuote | NoValidQuote

  datatype Member = Member(
    uid: string, quote: QuoteStatus, knownSuspended: bool,
    price: Option<real>, preClose: Option<real>,
    close5m: Option<real>, close10m: Option<real>, close15m: Option<real>,
    amount5m: Option<real>, amount15m: Option<real>, previousAmount5m: Option<real>,
    dailyAmounts: seq<real>)

  /** A prior trading day's five-minute amounts at the same clock time. */
  datatype Window = Window(date: string, amounts: seq<Holding>)

  datatype EarlyEvidence = EarlyEvidence(
    date: string, minutesAgo: int, dayReturn: real, breadth: real, turnover: real,
    qualifying: bool, official: bool)

  datatype Observation = Observation(
    uid: string, observedAt: int, date: string, minute: nat, fitness: Fitness,
    strength: Option<real>, breadth: Option<real>, turnover: Option<real>)

  /** A mapped context: absent, or present with a return that may be missing. */
  datatype Context = NoContext | MappedContext(return5m: Option<real>)

  datatype MetricInput = MetricInput(
    sectorUid: string, sectorMembers: seq<string>, primary: seq<Member>, windows: seq<Window>,
    historicalCoverage: real, providerFit: bool, providerLimited: bool, tradingDate: string,
    phase: SessionPhase, completeMinute: bool, finalSnapshot: bool, etf: Context, style: Context,
    early: Option<EarlyEvidence>, contextFit: bool, observations: seq<Observation>)

  datatype MetricValue = Value(ppm: PpmValue) | Missing | NotApplicable

  /** Reason codes, declared in the alphabetical order they are reported in. */
  datatype Reason =
    | ContextLimited | HistoricalCoverageLimited | HistoricalCoverageUnfit
    | InsufficientValidMembers | MarketPhaseNotEvaluable | NoTradableMembers
    | PrimaryProviderLimited | PrimaryProviderUnfit | QuoteCoverageLimited | QuoteCoverageUnfit
    | ValidMemberCountLimited

  datatype Quality = Quality(
    fitness: Fitness, quotePpm: PpmValue, historicalPpm: PpmValue, validCount: nat, expectedCount: nat,
    reasons: seq<Reason>)

  datatype CoreStats = CoreStats(
    uids: seq<string>, core: Option<real>, noncore: Option<real>, breadth: Option<real>)

  /** The returns, breadths, amounts and shares every metric is computed from. */
  datatype BaseFacts = BaseFacts(
    sectorDay: Option<real>, sector5m: Option<real>, sector15m: Option<real>,
    marketDay: Option<real>, market5m: Option<real>, market15m: Option<real>,
    breadthDay: Option<real>, breadth5m: Option<real>, previousBreadth5m: Option<real>,
    previousSector5m: Option<real>, turnover: Option<real>, amount5m: Option<real>,
    amount15m: Option<real>, previousAmount: Option<real>, inactive: Option<real>,
    turnoverBaseline: Option<real>, headShare: Option<real>, headBaseline: Option<real>,
    core: Option<CoreStats>, divergence: Option<PpmValue>, continuity: seq<Observation>)

  /** The mapped contexts, and the early evidence when it applies to this evaluation. */
  datatype Contexts = Contexts(etf: Context, style: Context, early: Option<EarlyEvidence>)

  datatype Evidence = Evidence(
    current: bool, sectorUid: string, primaryCount: nat, sectorMembers: seq<string>,
    windowDates: seq<string>, finalSnapshot: bool, quality: Quality,
    base: Option<BaseFacts>, metrics: map<MetricCode, MetricValue>)

  datatype MetricOutput = MetricOutput(
    sectorUid: string, values: map<MetricCode, MetricValue>, quality: Quality, evidence: Evidence)

  // ---- what the constructors reject

  function Itself<T>(x: T): T { x }

  function MemberUid(m: Member): string { m.uid }

  function HoldingUid(h: Holding): string { h.uid }

  function HoldingAmount(h: Holding): real { h.amount }

  function WindowDate(w: Window): string { w.date }

  function ObservationUid(o: Observation): string { o.uid }

  ghost predicate ValidInput(x: MetricInput) {
    && DistinctBy(MemberUid, x.primary) && DistinctBy(Itself<string>, x.sectorMembers)
    && (forall uid <- x.sectorMembers :: exists m <- x.primary :: m.uid == uid)
    && 0.0 <= x.historicalCoverage <= 1.0
    && DistinctBy(WindowDate, x.windows)
    && (forall w <- x.windows :: DistinctBy(HoldingUid, w.amounts))
    && DistinctBy(ObservationUid, x.observations)
    && (forall o <- x.observations :: o.date == x.tradingDate)
  }

  // ---- members

  predicate Suspended(m: Member) { m.knownSuspended || m.quote == SuspendedQuote }

  predicate HasValidQuote(m: Member) {
    && m.quote == ValidQuote
    && m.price.Some? && m.price.value > 0.0
    && m.preClose.Some? && m.preClose.value > 0.0
  }

  predicate Active(m: Member) { !Suspended(m) }

  predicate Tradable(m: Member) { !Suspended(m) && HasValidQuote(m) }

  function Pick(byUid: map<string, Member>, uids: seq<string>): seq<Member> {
    if uids == [] then []
    else (if uids[0] in byUid then [byUid[uids[0]]] else []) + Pick(byUid, uids[1..])
  }

  function SectorMembers(x: MetricInput): seq<Member> {
    Pick(Index(MemberUid, Itself<Member>, x.primary), SortBy(StringLeq, x.sectorMembers))
  }

  // ---- returns and amounts

  datatype ReturnKind = DayReturn | Return5m | Return15m | PreviousReturn5m

  function Return(numerator: Option<real>, denominator: Option<real>): Option<real> {
    if numerator.None? || denominator.None? || numerator.value <= 0.0 || denominator.value <= 0.0
    then None else Some(numerator.value / denominator.value - 1.0)
  }

  function ReturnOf(kind: ReturnKind, m: Member): Option<real> {
    match kind
    case DayReturn => Return(m.price, m.preClose)
    case Return5m => Return(m.price, m.close5m)
    case Return15m => Return(m.price, m.close15m)
    case PreviousReturn5m => Return(m.close5m, m.close10m)
  }

  predicate Known(v: Option<real>) { v.Some? }

  predicate NonNegativeAmount(v: Option<real>) { v.Some? && v.value >= 0.0 }

  predicate Positive(v: real) { v > 0.0 }

  predicate AllKnown(values: seq<Option<real>>) { |Filter(Known, values)| == |values| }

  function OrZero(v: Option<real>): real { if v.Some? then v.value else 0.0 }

  function Ratio(numerator: Option<real>, denominator: Option<real>): Option<real> {
    if numerator.None? || denominator.None? || denominator.value <= 0.0 then None
    else Some(numerator.value / denominator.value)
  }

  function PositiveShare(values: seq<real>): Option<real> {
    Ratio(Some(|Filter(Positive, values)| as real), Some(|values| as real))
  }

  function RobustAndBreadth(values: seq<Option<real>>): (Option<real>, Option<real>) {
    if !AllKnown(values) || values == [] then (None, None)
    else
      var known := Map(OrZero, values);
      (RobustReturn(known), PositiveShare(known))
  }

  function ReturnAndBreadth(members: seq<Member>, kind: ReturnKind): (Option<real>, Option<real>) {
    RobustAndBreadth(Map(m => ReturnOf(kind, m), members))
  }

  /** The total of the amounts, unknown when one is missing or negative. */
  function AmountTotal(amounts: seq<Option<real>>): Option<real> {
    if amounts == [] || |Filter(NonNegativeAmount, amounts)| != |amounts| then None
    else Some(Sum(Map(OrZero, amounts)))
  }

  predicate IsZero(v: real) { v == 0.0 }

  function InactiveRatio(amounts: seq<Option<real>>): Option<real> {
    if AmountTotal(amounts).None? then None
    else Ratio(Some(|Filter(IsZero, Map(OrZero, amounts))| as real), Some(|amounts| as real))
  }

  // ---- historical baselines

  predicate DateFirst(x: Window, y: Window) { StringLeq(x.date, y.date) }

  predicate Covers(byUid: map<string, real>, uids: seq<string>) {
    forall uid <- uids :: uid in byUid && byUid[uid] >= 0.0
  }

  function Current(byUid: map<string, real>, uids: seq<string>): (r: seq<Holding>)
    requires Covers(byUid, uids)
    ensures |r| == |uids|
  {
    seq(|uids|, i requires 0 <= i < |uids| => Holding(uids[i], byUid[uids[i]]))
  }

  /** A window's total and head share, when it covers every member and traded at all. */
  function WindowFigures(w: Window, uids: seq<string>): Option<(real, real)>
    requires uids != []
  {
    var byUid := Index(HoldingUid, HoldingAmount, w.amounts);
    if !Covers(byUid, uids) then None
    else
      var current := Current(byUid, uids);
      HeadCountFits(|uids|);
      if Total(current) <= 0.0 then None
      else Some((Total(current), HeadTotal(current, HeadCount(|uids|)) / Total(current)))
  }

  function FiguresOf(windows: seq<Window>, uids: seq<string>): seq<(real, real)>
    requires uids != []
  {
    if windows == [] then []
    else
      var last := WindowFigures(windows[|windows| - 1], uids);
      FiguresOf(windows[..|windows| - 1], uids) + (if last.Some? then [last.value] else [])
  }

  function Firsts(s: seq<(real, real)>): seq<real> { Map((p: (real, real)) => p.0, s) }

  function Seconds(s: seq<(real, real)>): seq<real> { Map((p: (real, real)) => p.1, s) }

  function BaselinesOf(figures: seq<(real, real)>): (Option<real>, Option<real>) {
    if |figures| < 3 then (None, None)
    else (Median(Firsts(figures)), Median(Seconds(figures)))
  }

  function HistoricalBaselines(windows: seq<Window>, uids: seq<string>): (Option<real>, Option<real>) {
    if uids == [] then (None, None)
    else BaselinesOf(FiguresOf(SortBy(DateFirst, windows), uids))
  }

  // ---- core and non-core members

  function Last20(m: Member): seq<real> {
    if |m.dailyAmounts| >= 20 then m.dailyAmounts[|m.dailyAmounts| - 20..] else m.dailyAmounts
  }

  predicate CoreEligible(m: Member) {
    && |m.dailyAmounts| >= 20
    && |Filter(Positive, Last20(m))| == 20
    && ReturnOf(Return5m, m).Some?
  }

  predicate LargestFirst(x: Member, y: Member) {
    Sum(Last20(x)) > Sum(Last20(y)) || (Sum(Last20(x)) == Sum(Last20(y)) && StringLeq(x.uid, y.uid))
  }

  function CoreCount(n: nat): nat {
    var fifth := (n + 4) / 5;
    var atLeastThree := if fifth < 3 then 3 else fifth;
    if atLeastThree > 10 then 10 else atLeastThree
  }

  function CoreStatsOf(members: seq<Member>): Option<CoreStats> {
    var eligible := Filter(CoreEligible, members);
    if |eligible| < 3 then None
    else
      var core := SortBy(LargestFirst, eligible)[..CoreCount(|eligible|)];
      var uids := Map(MemberUid, core);
      var noncore := Filter((m: Member) => m.uid !in uids, members);
      var noncoreReturns := Map(m => ReturnOf(Return5m, m), noncore);
      if noncore == [] || !AllKnown(noncoreReturns) then None
      else
        var coreReturns := Map(OrZero, Map(m => ReturnOf(Return5m, m), core));
        Some(CoreStats(SortBy(StringLeq, uids), RobustReturn(coreReturns),
                       RobustReturn(Map(OrZero, noncoreReturns)), PositiveShare(coreReturns)))
  }

  // ---- divergence

  function Divergence(moves: seq<Option<real>>, sector: Option<real>): Option<PpmValue> {
    if sector.None? || !AllKnown(moves) || moves == [] then None
    else
      var values := Map(OrZero, moves);
      var middle := Median(values).value;
      var dispersion := Median(Map(v => Abs(v - middle), values)).value;
      var against := if Abs(sector.value) < 0.002 then 0.0
                     else |Filter(v => v * sector.value < 0.0, values)| as real / |values| as real;
      Some(Ppm(DivergenceScore(dispersion, against)))
  }

  // ---- continuity

  predicate MinuteFirst(x: Observation, y: Observation) {
    x.minute < y.minute ||
    (x.minute == y.minute &&
     (x.observedAt < y.observedAt || (x.observedAt == y.observedAt && StringLeq(x.uid, y.uid))))
  }

  function OrderedObservations(s: seq<Observation>): seq<Observation> { SortBy(MinuteFirst, s) }

  /** Defined for exactly three FIT observations spanning ten market minutes. */
  function Continuity(observations: seq<Observation>): Option<PpmValue> {
    if |observations| != 3 then None else ContinuityInOrder(OrderedObservations(observations))
  }

  function ContinuityInOrder(o: seq<Observation>): Option<PpmValue>
    requires |o| == 3
  {
    if o[0].uid == o[1].uid || o[1].uid == o[2].uid || o[0].uid == o[2].uid then None
    else if o[0].observedAt == o[1].observedAt || o[1].observedAt == o[2].observedAt
            || o[0].observedAt == o[2].observedAt then None
    else if o[0].date != o[1].date || o[1].date != o[2].date then None
    else if o[2].minute - o[0].minute < 10 then None
    else if o[0].fitness != Fit || o[1].fitness != Fit || o[2].fitness != Fit then None
    else if o[0].strength.None? || o[1].strength.None? || o[2].strength.None? then None
    else if o[0].breadth.None? || o[1].breadth.None? || o[2].breadth.None? then None
    else if o[0].turnover.None? || o[1].turnover.None? || o[2].turnover.None? then None
    else
      var s := ContinuityComponent(o[0].strength.value, o[1].strength.value,
                                   o[2].strength.value, 0.0, 0.0015);
      var b := ContinuityComponent(o[0].breadth.value, o[1].breadth.value,
                                   o[2].breadth.value, 0.50, 0.03);
      var t := ContinuityComponent(o[0].turnover.value, o[1].turnover.value,
                                   o[2].turnover.value, 1.0, 0.10);
      Some(Ppm(ContinuityScore(s, b, t)))
  }

  // ---- base facts

  function BaseOf(x: MetricInput, sector: seq<Member>): BaseFacts {
    var market := Filter(Tradable, x.primary);
    var (sectorDay, breadthDay) := ReturnAndBreadth(sector, DayReturn);
    var (sector5m, breadth5m) := ReturnAndBreadth(sector, Return5m);
    var (previousSector5m, previousBreadth5m) := ReturnAndBreadth(sector, PreviousReturn5m);
    var amounts := Map((m: Member) => m.amount5m, sector);
    var uids := Map(MemberUid, sector);
    var (turnoverBaseline, headBaseline) := HistoricalBaselines(x.windows, uids);
    BaseFacts(
      sectorDay, sector5m, ReturnAndBreadth(sector, Return15m).0,
      ReturnAndBreadth(market, DayReturn).0, ReturnAndBreadth(market, Return5m).0,
      ReturnAndBreadth(market, Return15m).0,
      breadthDay, breadth5m, previousBreadth5m, previousSector5m,
      Ratio(AmountTotal(amounts), turnoverBaseline), AmountTotal(amounts),
      AmountTotal(Map((m: Member) => m.amount15m, sector)),
      AmountTotal(Map((m: Member) => m.previousAmount5m, sector)), InactiveRatio(amounts),
      turnoverBaseline, ShareOfHead(Map((m: Member) => Reported(m.uid, m.amount5m), sector)),
      headBaseline, CoreStatsOf(sector),
      Divergence(Map(m => ReturnOf(Return5m, m), sector), sector5m),
      OrderedObservations(x.observations))
  }

  // ---- the eighteen metrics

  function Rise(b: BaseFacts): Option<PpmValue> {
    if b.sector5m.None? || b.previousSector5m.None? then None
    else Some(Ppm(RiseScore(b.sector5m.value, b.previousSector5m.value)))
  }

  function Head(b: BaseFacts): Option<PpmValue> {
    if b.headShare.None? || b.headBaseline.None? || b.headBaseline.value <= 0.0 then None
    else Some(Ppm(HeadScore(b.headShare.value, b.headShare.value / b.headBaseline.value)))
  }

  function Crowded(b: BaseFacts): Option<PpmValue> {
    if Rise(b).None? || b.turnover.None? || Head(b).None? then None
    else Some(Ppm(CrowdingScore(FromPpm(Rise(b).value), b.turnover.value, FromPpm(Head(b).value))))
  }

  function Liquidity(b: BaseFacts): Option<PpmValue> {
    if b.amount5m.None? || b.previousAmount.None? || b.previousAmount.value <= 0.0
       || b.inactive.None? then None
    else Some(Ppm(LiquidityScore(1.0 - b.amount5m.value / b.previousAmount.value, b.inactive.value)))
  }

  function CoreWeak(b: BaseFacts): Option<PpmValue> {
    if b.core.None? || b.core.value.core.None? || b.core.value.noncore.None?
       || b.core.value.breadth.None? then None
    else Some(Ppm(CoreScore(b.core.value.core.value, b.core.value.noncore.value,
                            b.core.value.breadth.value)))
  }

  function Collapsing(b: BaseFacts): Option<PpmValue> {
    if b.breadth5m.None? || b.previousBreadth5m.None? then None
    else Some(Ppm(CollapseScore(b.breadth5m.value, b.previousBreadth5m.value)))
  }

  function Stampede(b: BaseFacts): Option<PpmValue> {
    if b.sector5m.None? || b.turnover.None? || Collapsing(b).None? then None
    else Some(Ppm(StampedeScore(b.sector5m.value, b.turnover.value, FromPpm(Collapsing(b).value))))
  }

  function Chasing(b: BaseFacts): Option<PpmValue> {
    if b.sectorDay.None? || Rise(b).None? || Crowded(b).None? || Head(b).None? then None
    else Some(Ppm(ChasingScore(b.sectorDay.value, FromPpm(Rise(b).value), FromPpm(Crowded(b).value),
                               FromPpm(Head(b).value))))
  }

  predicate EarlyApplicable(e: EarlyEvidence, tradingDate: string) {
    e.official && e.qualifying && e.date == tradingDate && 0 <= e.minutesAgo <= 30
  }

  function ContextsOf(x: MetricInput): Contexts {
    Contexts(x.etf, x.style,
             if x.early.Some? && EarlyApplicable(x.early.value, x.tradingDate) then x.early else None)
  }

  function EarlyFailure(e: EarlyEvidence, b: BaseFacts): Option<PpmValue> {
    if b.sectorDay.None? || b.breadthDay.None? || b.turnover.None? then None
    else Some(Ppm(EarlyFailureScore(e.dayReturn - b.sectorDay.value, e.breadth - b.breadthDay.value,
                                    e.turnover - b.turnover.value)))
  }

  function EarlyStart(b: BaseFacts): Option<PpmValue> {
    if b.sector5m.None? || b.breadth5m.None? || b.turnover.None? then None
    else Some(Ppm(EarlyActivityScore(b.sector5m.value, b.breadth5m.value, b.turnover.value)))
  }

  function WideBreadth(b: BaseFacts): Option<PpmValue> {
    if b.breadth5m.None? || Head(b).None? then None
    else Some(Ppm(HealthyBreadthScore(b.breadth5m.value, FromPpm(Head(b).value))))
  }

  function Strength(b: BaseFacts): Option<PpmValue> {
    if b.sector5m.None? || b.sector15m.None? || b.market5m.None? || b.market15m.None? then None
    else Some(Ppm(StrengthScore(b.sector5m.value - b.market5m.value,
                                b.sector15m.value - b.market15m.value)))
  }

  function TurnoverPpm(b: BaseFacts): Option<PpmValue> {
    if b.turnover.None? then None else Some(Ppm(TurnoverScore(b.turnover.value)))
  }

  function OrMissing(v: Option<PpmValue>): MetricValue {
    if v.None? then Missing else Value(v.value)
  }

  function EtfValue(etf: Context, market: Option<real>): MetricValue {
    if etf.NoContext? then NotApplicable
    else if etf.return5m.None? || market.None? then Missing
    else Value(Ppm(EtfScore(etf.return5m.value, market.value)))
  }

  function StyleValue(style: Context, market: Option<real>): MetricValue {
    if style.NoContext? then NotApplicable
    else if style.return5m.None? || market.None? then Missing
    else Value(Ppm(StyleScore(style.return5m.value - market.value)))
  }

  /** The eighteen metrics before the quality gate. */
  datatype Scores = Scores(
    rise: Option<PpmValue>, head: Option<PpmValue>, divergence: Option<PpmValue>, crowding: Option<PpmValue>,
    liquidity: Option<PpmValue>, coreWeak: Option<PpmValue>, collapsing: Option<PpmValue>, stampede: Option<PpmValue>,
    chasing: Option<PpmValue>, earlyFailure: MetricValue, earlyStart: Option<PpmValue>,
    wideBreadth: Option<PpmValue>, strength: Option<PpmValue>, turnover: Option<PpmValue>, etf: MetricValue,
    style: MetricValue, continuity: Option<PpmValue>)

  /** Rule version 2 brings its continuity score, version 1 none. */
  function ScoresOf(c: Contexts, b: BaseFacts, continuity: Option<PpmValue>): Scores {
    Scores(Rise(b), Head(b), b.divergence, Crowded(b), Liquidity(b), CoreWeak(b), Collapsing(b),
           Stampede(b), Chasing(b),
           if c.early.Some? then OrMissing(EarlyFailure(c.early.value, b)) else NotApplicable,
           EarlyStart(b), WideBreadth(b), Strength(b), TurnoverPpm(b), EtfValue(c.etf, b.market5m),
           StyleValue(c.style, b.market5m), continuity)
  }

  function ScoreOf(s: Scores, code: MetricCode): MetricValue {
    match code
    case RiseRate => OrMissing(s.rise)
    case HeadConcentration => OrMissing(s.head)
    case InternalDivergence => OrMissing(s.divergence)
    case Crowding => OrMissing(s.crowding)
    case LiquidityWeakening => OrMissing(s.liquidity)
    case CoreWeakening => OrMissing(s.coreWeak)
    case BreadthCollapse => OrMissing(s.collapsing)
    case StampedeRisk => OrMissing(s.stampede)
    case T1Chasing => OrMissing(s.chasing)
    case EarlySignalFailure => s.earlyFailure
    case EarlyActivity => OrMissing(s.earlyStart)
    case HealthyBreadth => OrMissing(s.wideBreadth)
    case RelativeStrength => OrMissing(s.strength)
    case TurnoverConfirmation => OrMissing(s.turnover)
    case EtfConfirmation => s.etf
    case StyleSupport => s.style
    case LowCrowding => if s.crowding.None? then Missing else Value(1_000_000 - s.crowding.value)
    case ContinuityStrengthening => OrMissing(s.continuity)
  }

  /** What an evaluation that calculates nothing reports. */
  function Empty(c: Contexts, code: MetricCode): MetricValue {
    match code
    case EtfConfirmation => if c.etf.NoContext? then NotApplicable else Missing
    case StyleSupport => if c.style.NoContext? then NotApplicable else Missing
    case EarlySignalFailure => if c.early.Some? then Missing else NotApplicable
    case _ => Missing
  }

  // ---- quality

  function Coverage(active: nat, valid: nat): real {
    if active == 0 then 0.0 else valid as real / active as real
  }

  predicate EvaluablePhase(x: MetricInput) {
    (InContinuousSession(x.phase) || (x.phase.Closed? && x.finalSnapshot))
    && x.completeMinute
  }

  /** What the quality depends on besides the member counts. */
  datatype QualityInputs = QualityInputs(
    evaluable: bool, history: real, providerFit: bool, providerLimited: bool, contextFit: bool)

  function QualityInputsOf(x: MetricInput): QualityInputs {
    QualityInputs(EvaluablePhase(x), x.historicalCoverage, x.providerFit, x.providerLimited, x.contextFit)
  }

  function Rank(r: Reason): nat {
    match r
    case ContextLimited => 0 case HistoricalCoverageLimited => 1 case HistoricalCoverageUnfit => 2
    case InsufficientValidMembers => 3 case MarketPhaseNotEvaluable => 4 case NoTradableMembers => 5
    case PrimaryProviderLimited => 6 case PrimaryProviderUnfit => 7 case QuoteCoverageLimited => 8
    case QuoteCoverageUnfit => 9 case ValidMemberCountLimited => 10
  }

  predicate Alphabetical(x: Reason, y: Reason) { Rank(x) <= Rank(y) }

  function If(condition: bool, reason: Reason): seq<Reason> { if condition then [reason] else [] }

  function UnfitReasons(x: QualityInputs, active: nat, valid: nat): seq<Reason> {
    If(active == 0, NoTradableMembers)
    + If(Coverage(active, valid) < 0.70, QuoteCoverageUnfit)
    + If(valid < 3, InsufficientValidMembers)
    + If(x.history < 0.70, HistoricalCoverageUnfit)
    + If(!x.providerFit, PrimaryProviderUnfit)
  }

  function LimitedReasons(x: QualityInputs, active: nat, valid: nat): seq<Reason> {
    If(Coverage(active, valid) < 0.85, QuoteCoverageLimited)
    + If(x.history < 0.80, HistoricalCoverageLimited)
    + If(x.providerLimited, PrimaryProviderLimited)
    + If(!x.contextFit, ContextLimited)
    + If(valid < 5, ValidMemberCountLimited)
  }

  function QualityOf(x: QualityInputs, active: nat, valid: nat): Quality {
    var quote, history := Ppm(Coverage(active, valid)), Ppm(x.history);
    var unfit, limited := UnfitReasons(x, active, valid), LimitedReasons(x, active, valid);
    if !x.evaluable then
      Quality(Unfit, quote, history, valid, active, [MarketPhaseNotEvaluable])
    else if unfit != [] then
      Quality(Unfit, quote, history, valid, active, SortBy(Alphabetical, unfit))
    else if limited != [] then
      Quality(FitWithLimitations, quote, history, valid, active, SortBy(Alphabetical, limited))
    else Quality(Fit, quote, history, valid, active, [])
  }

  // ---- the evaluation

  /** UNFIT keeps no value, FIT_WITH_LIMITATIONS keeps no Scout value. */
  function Gate(fitness: Fitness, code: MetricCode, v: MetricValue): MetricValue {
    if v.Value? && (fitness == Unfit || (fitness == FitWithLimitations && code in SCOUT_CODES))
    then Missing else v
  }

  /** `scores` is absent when nothing was calculated. */
  function GatedValue(c: Contexts, scores: Option<Scores>, fitness: Fitness, code: MetricCode): MetricValue {
    Gate(fitness, code, if scores.None? then Empty(c, code) else ScoreOf(scores.value, code))
  }

  function GatedValues(c: Contexts, scores: Option<Scores>, fitness: Fitness): map<MetricCode, MetricValue> {
    map code | code in ALL_CODES :: GatedValue(c, scores, fitness, code)
  }

  function ValidSector(x: MetricInput): seq<Member> {
    Filter(HasValidQuote, Filter(Active, SectorMembers(x)))
  }

  function SectorQuality(x: MetricInput): Quality {
    QualityOf(QualityInputsOf(x), |Filter(Active, SectorMembers(x))|, |ValidSector(x)|)
  }

  /** Nothing is calculated from an UNFIT input. */
  function CalculatedBase(x: MetricInput): Option<BaseFacts> {
    if SectorQuality(x).fitness == Unfit then None else Some(BaseOf(x, ValidSector(x)))
  }

  function CalculatedScores(current: bool, x: MetricInput): Option<Scores> {
    var base := CalculatedBase(x);
    if base.None? then None
    else Some(ScoresOf(ContextsOf(x), base.value, if current then Continuity(x.observations) else None))
  }

  function EvidenceOf(current: bool, x: MetricInput, values: map<MetricCode, MetricValue>): Evidence {
    Evidence(current, x.sectorUid, |x.primary|, SortBy(StringLeq, x.sectorMembers),
             SortBy(StringLeq, Map(WindowDate, x.windows)), x.finalSnapshot, SectorQuality(x),
             CalculatedBase(x), values)
  }

  /** `current` is rule version 2, which scores continuity. */
  function Evaluation(current: bool, x: MetricInput): MetricOutput {
    var quality := SectorQuality(x);
    var values := GatedValues(ContextsOf(x), CalculatedScores(current, x), quality.fitness);
    MetricOutput(x.sectorUid, values, quality, EvidenceOf(current, x, values))
  }

  function MetricsIn(codes: set<MetricCode>, out: MetricOutput): map<MetricCode, PpmValue> {
    map code | code in codes && code in out.values && out.values[code].Value? :: out.values[code].ppm
  }

  function GuardianMetrics(out: MetricOutput): map<MetricCode, PpmValue> { MetricsIn(GUARDIAN_CODES, out) }

  function ScoutMetrics(out: MetricOutput): map<MetricCode, PpmValue> { MetricsIn(SCOUT_CODES, out) }
}
