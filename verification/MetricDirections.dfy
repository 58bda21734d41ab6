/** Which way each reported value moves with the facts of the sector. */
module MetricDirections {
  import opened Wrappers
  import opened Domain
  import opened MetricFormulas
  import opened MetricProducer
  import opened MetricMeaning

  /** Both known, the second at least the first. */
  predicate Up(x: Option<real>, y: Option<real>) { x.Some? && y.Some? && x.value <= y.value }

  predicate NotNegative(x: Option<real>) { x.Some? && x.value >= 0.0 }

  predicate UpValue(v: MetricValue, w: MetricValue) { v.Value? && w.Value? && v.ppm <= w.ppm }

  /** The second value is not below the first. */
  predicate Orders(v: MetricValue, w: MetricValue) { v.Value? && w.Value? ==> v.ppm <= w.ppm }

  lemma QuotientUp(a: real, b: real, c: real, d: real)
    requires 0.0 <= a <= c && b >= d > 0.0
    ensures a / b <= c / d
  {
    QuotientOrder(a, c, b);
    var q := c / b;
    assert q * b == c && q >= 0.0;
    assert q * d <= c;
    QuotientOrder(q * d, c, d);
    assert q * d / d == q;
  }

  lemma ProductOrder(p: real, q: real, r: real)
    requires p <= q && r >= 0.0
    ensures p * r <= q * r
  {
    assert (q - p) * r >= 0.0;
    assert (q - p) * r == q * r - p * r;
  }

  lemma DampedOrder(f: real, head: real, f': real, head': real)
    requires 0.0 <= f <= f' <= 1.0 && 0.0 <= head' <= head <= 1.0
    ensures Damped(f, head) <= Damped(f', head')
  {
    ProductOrder(f, f', 1.0 - 0.40 * head);
    ProductOrder(head', head, f');
  }

  lemma StrengthUp(s5: real, m5: real, s15: real, m15: real, s5': real, m5': real, s15': real, m15': real)
    requires s5 <= s5' && m5' <= m5 && s15 <= s15' && m15' <= m15
    ensures Ppm(StrengthScore(s5 - m5, s15 - m15)) <= Ppm(StrengthScore(s5' - m5', s15' - m15'))
  {
    LinearMonotone(s5 - m5, s5' - m5', 0.002, 0.015);
    LinearMonotone(s15 - m15, s15' - m15', 0.003, 0.025);
    hide Linear, Ppm;
    PpmMonotone(StrengthScore(s5 - m5, s15 - m15), StrengthScore(s5' - m5', s15' - m15'));
  }

  lemma WideScores(breadth: real, head: real, breadth': real, head': real)
    requires breadth <= breadth' && 0.0 <= head' <= head <= 1.0
    ensures HealthyBreadthScore(breadth, head) <= HealthyBreadthScore(breadth', head')
  {
    LinearMonotone(breadth, breadth', 0.50, 0.75);
    DampedOrder(Linear(breadth, 0.50, 0.75), head, Linear(breadth', 0.50, 0.75), head');
    hide Linear;
  }

  lemma RiseUp(b: BaseFacts, d: BaseFacts)
    requires Up(b.sector5m, d.sector5m)
    requires Up(d.previousSector5m, b.previousSector5m)
    ensures Orders(OrMissing(Rise(b)), OrMissing(Rise(d)))
  {
    hide Linear, Ppm;
    if Rise(b).Some? && Rise(d).Some? {
      LinearMonotone(b.sector5m.value, d.sector5m.value, 0.015, 0.040);
      LinearMonotone(b.sector5m.value - b.previousSector5m.value,
                     d.sector5m.value - d.previousSector5m.value, 0.008, 0.025);
      assert RiseScore(b.sector5m.value, b.previousSector5m.value)
             <= RiseScore(d.sector5m.value, d.previousSector5m.value);
      hide RiseScore;
      PpmMonotone(RiseScore(b.sector5m.value, b.previousSector5m.value),
                  RiseScore(d.sector5m.value, d.previousSector5m.value));
    }
  }

  /** Up with the return, down with the one before. */
  lemma RiseDirection(cx: bool, x: MetricInput, cy: bool, y: MetricInput)
    requires Shows(cx, x, RiseRate) && Shows(cy, y, RiseRate)
    requires var b, d := Facts(x), Facts(y);
             && Up(b.sector5m, d.sector5m)
             && Up(d.previousSector5m, b.previousSector5m)
    ensures Orders(Reported(cx, x, RiseRate), Reported(cy, y, RiseRate))
  {
    ReportedIs(cx, x, RiseRate);
    ReportedIs(cy, y, RiseRate);
    GuardianFormulas(ContextsOf(x), Facts(x), Scored(cx, x));
    GuardianFormulas(ContextsOf(y), Facts(y), Scored(cy, y));
    hide *;
    RiseUp(Facts(x), Facts(y));
  }

  lemma HeadUp(b: BaseFacts, d: BaseFacts)
    requires NotNegative(b.headShare)
    requires Up(b.headShare, d.headShare)
    requires Up(d.headBaseline, b.headBaseline)
    ensures Orders(OrMissing(Head(b)), OrMissing(Head(d)))
  {
    hide Linear, Ppm;
    if Head(b).Some? && Head(d).Some? {
      QuotientUp(b.headShare.value, b.headBaseline.value, d.headShare.value, d.headBaseline.value);
      LinearMonotone(b.headShare.value, d.headShare.value, 0.35, 0.60);
      LinearMonotone(b.headShare.value / b.headBaseline.value, d.headShare.value / d.headBaseline.value, 1.20, 1.80);
      assert HeadScore(b.headShare.value, b.headShare.value / b.headBaseline.value)
             <= HeadScore(d.headShare.value, d.headShare.value / d.headBaseline.value);
      hide HeadScore;
      PpmMonotone(HeadScore(b.headShare.value, b.headShare.value / b.headBaseline.value),
                  HeadScore(d.headShare.value, d.headShare.value / d.headBaseline.value));
    }
  }

  /** Up with the share, down with its baseline. */
  lemma HeadDirection(cx: bool, x: MetricInput, cy: bool, y: MetricInput)
    requires Shows(cx, x, HeadConcentration) && Shows(cy, y, HeadConcentration)
    requires var b, d := Facts(x), Facts(y);
             && NotNegative(b.headShare)
             && Up(b.headShare, d.headShare)
             && Up(d.headBaseline, b.headBaseline)
    ensures Orders(Reported(cx, x, HeadConcentration), Reported(cy, y, HeadConcentration))
  {
    ReportedIs(cx, x, HeadConcentration);
    ReportedIs(cy, y, HeadConcentration);
    GuardianFormulas(ContextsOf(x), Facts(x), Scored(cx, x));
    GuardianFormulas(ContextsOf(y), Facts(y), Scored(cy, y));
    hide *;
    HeadUp(Facts(x), Facts(y));
  }

  lemma CrowdingUp(b: BaseFacts, d: BaseFacts)
    requires Up(b.turnover, d.turnover)
    requires UpValue(OrMissing(Rise(b)), OrMissing(Rise(d)))
    requires UpValue(OrMissing(Head(b)), OrMissing(Head(d)))
    ensures Orders(OrMissing(Crowded(b)), OrMissing(Crowded(d)))
  {
    hide Linear, Ppm, Rise, Head;
    if Crowded(b).Some? && Crowded(d).Some? {
      LinearMonotone(b.turnover.value, d.turnover.value, 1.30, 2.50);
      assert CrowdingScore(FromPpm(Rise(b).value), b.turnover.value, FromPpm(Head(b).value))
             <= CrowdingScore(FromPpm(Rise(d).value), d.turnover.value, FromPpm(Head(d).value));
      hide CrowdingScore;
      PpmMonotone(CrowdingScore(FromPpm(Rise(b).value), b.turnover.value, FromPpm(Head(b).value)),
                  CrowdingScore(FromPpm(Rise(d).value), d.turnover.value, FromPpm(Head(d).value)));
    }
  }

  /** Up with rise, turnover and head. */
  lemma CrowdingDirection(cx: bool, x: MetricInput, cy: bool, y: MetricInput)
    requires Shows(cx, x, Crowding) && Shows(cy, y, Crowding)
    requires var b, d := Facts(x), Facts(y);
             && Up(b.turnover, d.turnover)
    requires UpValue(Reported(cx, x, RiseRate), Reported(cy, y, RiseRate))
    requires UpValue(Reported(cx, x, HeadConcentration), Reported(cy, y, HeadConcentration))
    ensures Orders(Reported(cx, x, Crowding), Reported(cy, y, Crowding))
  {
    AlsoShows(cx, x, Crowding);
    AlsoShows(cy, y, Crowding);
    ReportedIs(cx, x, Crowding);
    ReportedIs(cy, y, Crowding);
    ReportedIs(cx, x, RiseRate);
    ReportedIs(cy, y, RiseRate);
    ReportedIs(cx, x, HeadConcentration);
    ReportedIs(cy, y, HeadConcentration);
    GuardianFormulas(ContextsOf(x), Facts(x), Scored(cx, x));
    GuardianFormulas(ContextsOf(y), Facts(y), Scored(cy, y));
    hide *;
    CrowdingUp(Facts(x), Facts(y));
  }

  lemma LiquidityUp(b: BaseFacts, d: BaseFacts)
    requires NotNegative(d.amount5m)
    requires Up(d.amount5m, b.amount5m)
    requires Up(b.previousAmount, d.previousAmount)
    requires Up(b.inactive, d.inactive)
    ensures Orders(OrMissing(Liquidity(b)), OrMissing(Liquidity(d)))
  {
    hide Linear, Ppm;
    if Liquidity(b).Some? && Liquidity(d).Some? {
      QuotientUp(d.amount5m.value, d.previousAmount.value, b.amount5m.value, b.previousAmount.value);
      LinearMonotone(1.0 - b.amount5m.value / b.previousAmount.value,
                     1.0 - d.amount5m.value / d.previousAmount.value, 0.20, 0.60);
      LinearMonotone(b.inactive.value, d.inactive.value, 0.10, 0.35);
      assert LiquidityScore(1.0 - b.amount5m.value / b.previousAmount.value, b.inactive.value)
             <= LiquidityScore(1.0 - d.amount5m.value / d.previousAmount.value, d.inactive.value);
      hide LiquidityScore;
      PpmMonotone(LiquidityScore(1.0 - b.amount5m.value / b.previousAmount.value, b.inactive.value),
                  LiquidityScore(1.0 - d.amount5m.value / d.previousAmount.value, d.inactive.value));
    }
  }

  /** Up as the amount falls behind what it was, and with the members that do not trade. */
  lemma LiquidityDirection(cx: bool, x: MetricInput, cy: bool, y: MetricInput)
    requires Shows(cx, x, LiquidityWeakening) && Shows(cy, y, LiquidityWeakening)
    requires var b, d := Facts(x), Facts(y);
             && NotNegative(d.amount5m)
             && Up(d.amount5m, b.amount5m)
             && Up(b.previousAmount, d.previousAmount)
             && Up(b.inactive, d.inactive)
    ensures Orders(Reported(cx, x, LiquidityWeakening), Reported(cy, y, LiquidityWeakening))
  {
    ReportedIs(cx, x, LiquidityWeakening);
    ReportedIs(cy, y, LiquidityWeakening);
    GuardianFormulas(ContextsOf(x), Facts(x), Scored(cx, x));
    GuardianFormulas(ContextsOf(y), Facts(y), Scored(cy, y));
    hide *;
    LiquidityUp(Facts(x), Facts(y));
  }

  lemma CoreUp(b: BaseFacts, d: BaseFacts)
    requires b.core.Some? && d.core.Some? && Up(d.core.value.core, b.core.value.core)
    requires Up(b.core.value.noncore, d.core.value.noncore)
    requires Up(d.core.value.breadth, b.core.value.breadth)
    ensures Orders(OrMissing(CoreWeak(b)), OrMissing(CoreWeak(d)))
  {
    hide Linear, Ppm;
    if CoreWeak(b).Some? && CoreWeak(d).Some? {
      LinearMonotone(b.core.value.noncore.value - b.core.value.core.value,
                     d.core.value.noncore.value - d.core.value.core.value, 0.005, 0.025);
      LinearMonotone(0.50 - b.core.value.breadth.value, 0.50 - d.core.value.breadth.value, 0.0, 0.30);
      assert CoreScore(b.core.value.core.value, b.core.value.noncore.value, b.core.value.breadth.value)
             <= CoreScore(d.core.value.core.value, d.core.value.noncore.value, d.core.value.breadth.value);
      hide CoreScore;
      PpmMonotone(CoreScore(b.core.value.core.value, b.core.value.noncore.value, b.core.value.breadth.value),
                  CoreScore(d.core.value.core.value, d.core.value.noncore.value, d.core.value.breadth.value));
    }
  }

  /** Up as the core falls behind the rest and fewer of it rise. */
  lemma CoreDirection(cx: bool, x: MetricInput, cy: bool, y: MetricInput)
    requires Shows(cx, x, CoreWeakening) && Shows(cy, y, CoreWeakening)
    requires var b, d := Facts(x), Facts(y);
             && b.core.Some? && d.core.Some? && Up(d.core.value.core, b.core.value.core)
             && Up(b.core.value.noncore, d.core.value.noncore)
             && Up(d.core.value.breadth, b.core.value.breadth)
    ensures Orders(Reported(cx, x, CoreWeakening), Reported(cy, y, CoreWeakening))
  {
    ReportedIs(cx, x, CoreWeakening);
    ReportedIs(cy, y, CoreWeakening);
    GuardianFormulas(ContextsOf(x), Facts(x), Scored(cx, x));
    GuardianFormulas(ContextsOf(y), Facts(y), Scored(cy, y));
    hide *;
    CoreUp(Facts(x), Facts(y));
  }

  lemma BreadthUp(b: BaseFacts, d: BaseFacts)
    requires Up(b.previousBreadth5m, d.previousBreadth5m)
    requires Up(d.breadth5m, b.breadth5m)
    ensures Orders(OrMissing(Collapsing(b)), OrMissing(Collapsing(d)))
  {
    hide Linear, Ppm;
    if Collapsing(b).Some? && Collapsing(d).Some? {
      LinearMonotone(b.previousBreadth5m.value - b.breadth5m.value,
                     d.previousBreadth5m.value - d.breadth5m.value, 0.15, 0.40);
      LinearMonotone(0.45 - b.breadth5m.value, 0.45 - d.breadth5m.value, 0.0, 0.25);
      assert CollapseScore(b.breadth5m.value, b.previousBreadth5m.value)
             <= CollapseScore(d.breadth5m.value, d.previousBreadth5m.value);
      hide CollapseScore;
      PpmMonotone(CollapseScore(b.breadth5m.value, b.previousBreadth5m.value),
                  CollapseScore(d.breadth5m.value, d.previousBreadth5m.value));
    }
  }

  /** Up with the breadth before, down with the breadth now. */
  lemma BreadthDirection(cx: bool, x: MetricInput, cy: bool, y: MetricInput)
    requires Shows(cx, x, BreadthCollapse) && Shows(cy, y, BreadthCollapse)
    requires var b, d := Facts(x), Facts(y);
             && Up(b.previousBreadth5m, d.previousBreadth5m)
             && Up(d.breadth5m, b.breadth5m)
    ensures Orders(Reported(cx, x, BreadthCollapse), Reported(cy, y, BreadthCollapse))
  {
    ReportedIs(cx, x, BreadthCollapse);
    ReportedIs(cy, y, BreadthCollapse);
    GuardianFormulas(ContextsOf(x), Facts(x), Scored(cx, x));
    GuardianFormulas(ContextsOf(y), Facts(y), Scored(cy, y));
    hide *;
    BreadthUp(Facts(x), Facts(y));
  }

  lemma StampedeUp(b: BaseFacts, d: BaseFacts)
    requires Up(d.sector5m, b.sector5m)
    requires Up(b.turnover, d.turnover)
    requires UpValue(OrMissing(Collapsing(b)), OrMissing(Collapsing(d)))
    ensures Orders(OrMissing(Stampede(b)), OrMissing(Stampede(d)))
  {
    hide Linear, Ppm, Collapsing;
    if Stampede(b).Some? && Stampede(d).Some? {
      LinearMonotone(-b.sector5m.value, -d.sector5m.value, 0.015, 0.040);
      LinearMonotone(b.turnover.value, d.turnover.value, 1.30, 2.50);
      assert StampedeScore(b.sector5m.value, b.turnover.value, FromPpm(Collapsing(b).value))
             <= StampedeScore(d.sector5m.value, d.turnover.value, FromPpm(Collapsing(d).value));
      hide StampedeScore;
      PpmMonotone(StampedeScore(b.sector5m.value, b.turnover.value, FromPpm(Collapsing(b).value)),
                  StampedeScore(d.sector5m.value, d.turnover.value, FromPpm(Collapsing(d).value)));
    }
  }

  /** Up with the collapse and the turnover, down with the return. */
  lemma StampedeDirection(cx: bool, x: MetricInput, cy: bool, y: MetricInput)
    requires Shows(cx, x, StampedeRisk) && Shows(cy, y, StampedeRisk)
    requires var b, d := Facts(x), Facts(y);
             && Up(d.sector5m, b.sector5m)
             && Up(b.turnover, d.turnover)
    requires UpValue(Reported(cx, x, BreadthCollapse), Reported(cy, y, BreadthCollapse))
    ensures Orders(Reported(cx, x, StampedeRisk), Reported(cy, y, StampedeRisk))
  {
    AlsoShows(cx, x, StampedeRisk);
    AlsoShows(cy, y, StampedeRisk);
    ReportedIs(cx, x, StampedeRisk);
    ReportedIs(cy, y, StampedeRisk);
    ReportedIs(cx, x, BreadthCollapse);
    ReportedIs(cy, y, BreadthCollapse);
    GuardianFormulas(ContextsOf(x), Facts(x), Scored(cx, x));
    GuardianFormulas(ContextsOf(y), Facts(y), Scored(cy, y));
    hide *;
    StampedeUp(Facts(x), Facts(y));
  }

  lemma ChasingUp(b: BaseFacts, d: BaseFacts)
    requires Up(b.sectorDay, d.sectorDay)
    requires UpValue(OrMissing(Rise(b)), OrMissing(Rise(d)))
    requires UpValue(OrMissing(Crowded(b)), OrMissing(Crowded(d)))
    requires UpValue(OrMissing(Head(b)), OrMissing(Head(d)))
    ensures Orders(OrMissing(Chasing(b)), OrMissing(Chasing(d)))
  {
    hide Linear, Ppm, Rise, Head, Crowded;
    if Chasing(b).Some? && Chasing(d).Some? {
      LinearMonotone(b.sectorDay.value, d.sectorDay.value, 0.025, 0.070);
      assert ChasingScore(b.sectorDay.value, FromPpm(Rise(b).value),
                         FromPpm(Crowded(b).value), FromPpm(Head(b).value))
             <= ChasingScore(d.sectorDay.value, FromPpm(Rise(d).value),
                         FromPpm(Crowded(d).value), FromPpm(Head(d).value));
      hide ChasingScore;
      PpmMonotone(ChasingScore(b.sectorDay.value, FromPpm(Rise(b).value),
                         FromPpm(Crowded(b).value), FromPpm(Head(b).value)),
                  ChasingScore(d.sectorDay.value, FromPpm(Rise(d).value),
                         FromPpm(Crowded(d).value), FromPpm(Head(d).value)));
    }
  }

  /** Up with rise, crowding, head and the day's return. */
  lemma ChasingDirection(cx: bool, x: MetricInput, cy: bool, y: MetricInput)
    requires Shows(cx, x, T1Chasing) && Shows(cy, y, T1Chasing)
    requires var b, d := Facts(x), Facts(y);
             && Up(b.sectorDay, d.sectorDay)
    requires UpValue(Reported(cx, x, RiseRate), Reported(cy, y, RiseRate))
    requires UpValue(Reported(cx, x, Crowding), Reported(cy, y, Crowding))
    requires UpValue(Reported(cx, x, HeadConcentration), Reported(cy, y, HeadConcentration))
    ensures Orders(Reported(cx, x, T1Chasing), Reported(cy, y, T1Chasing))
  {
    AlsoShows(cx, x, T1Chasing);
    AlsoShows(cy, y, T1Chasing);
    ReportedIs(cx, x, T1Chasing);
    ReportedIs(cy, y, T1Chasing);
    ReportedIs(cx, x, RiseRate);
    ReportedIs(cy, y, RiseRate);
    ReportedIs(cx, x, Crowding);
    ReportedIs(cy, y, Crowding);
    ReportedIs(cx, x, HeadConcentration);
    ReportedIs(cy, y, HeadConcentration);
    GuardianFormulas(ContextsOf(x), Facts(x), Scored(cx, x));
    GuardianFormulas(ContextsOf(y), Facts(y), Scored(cy, y));
    hide *;
    ChasingUp(Facts(x), Facts(y));
  }

  lemma EarlyUp(b: BaseFacts, d: BaseFacts)
    requires b.sector5m == d.sector5m
    requires Up(b.breadth5m, d.breadth5m)
    requires Up(b.turnover, d.turnover)
    ensures Orders(OrMissing(EarlyStart(b)), OrMissing(EarlyStart(d)))
  {
    hide Linear, Ppm, FreshStart;
    if EarlyStart(b).Some? && EarlyStart(d).Some? {
      LinearMonotone(b.breadth5m.value, d.breadth5m.value, 0.52, 0.72);
      LinearMonotone(b.turnover.value, d.turnover.value, 1.20, 2.00);
      assert EarlyActivityScore(b.sector5m.value, b.breadth5m.value, b.turnover.value)
             <= EarlyActivityScore(d.sector5m.value, d.breadth5m.value, d.turnover.value);
      hide EarlyActivityScore;
      PpmMonotone(EarlyActivityScore(b.sector5m.value, b.breadth5m.value, b.turnover.value),
                  EarlyActivityScore(d.sector5m.value, d.breadth5m.value, d.turnover.value));
    }
  }

  /** At the same return, up with breadth and turnover. */
  lemma EarlyDirection(cx: bool, x: MetricInput, cy: bool, y: MetricInput)
    requires Shows(cx, x, EarlyActivity) && Shows(cy, y, EarlyActivity)
    requires var b, d := Facts(x), Facts(y);
             && b.sector5m == d.sector5m
             && Up(b.breadth5m, d.breadth5m)
             && Up(b.turnover, d.turnover)
    ensures Orders(Reported(cx, x, EarlyActivity), Reported(cy, y, EarlyActivity))
  {
    ReportedIs(cx, x, EarlyActivity);
    ReportedIs(cy, y, EarlyActivity);
    ScoutFormulas(ContextsOf(x), Facts(x), Scored(cx, x));
    ScoutFormulas(ContextsOf(y), Facts(y), Scored(cy, y));
    hide *;
    EarlyUp(Facts(x), Facts(y));
  }

  lemma WideUp(b: BaseFacts, d: BaseFacts)
    requires Up(b.breadth5m, d.breadth5m)
    requires UpValue(OrMissing(Head(d)), OrMissing(Head(b)))
    ensures Orders(OrMissing(WideBreadth(b)), OrMissing(WideBreadth(d)))
  {
    hide Linear, Ppm, Head, HealthyBreadthScore;
    if WideBreadth(b).Some? && WideBreadth(d).Some? {
      WideScores(b.breadth5m.value, FromPpm(Head(b).value), d.breadth5m.value, FromPpm(Head(d).value));
      PpmMonotone(HealthyBreadthScore(b.breadth5m.value, FromPpm(Head(b).value)),
                  HealthyBreadthScore(d.breadth5m.value, FromPpm(Head(d).value)));
    }
  }

  /** Up with breadth, down with the head. */
  lemma WideDirection(cx: bool, x: MetricInput, cy: bool, y: MetricInput)
    requires Shows(cx, x, HealthyBreadth) && Shows(cy, y, HealthyBreadth)
    requires var b, d := Facts(x), Facts(y);
             && Up(b.breadth5m, d.breadth5m)
    requires UpValue(Reported(cy, y, HeadConcentration), Reported(cx, x, HeadConcentration))
    ensures Orders(Reported(cx, x, HealthyBreadth), Reported(cy, y, HealthyBreadth))
  {
    AlsoShows(cx, x, HealthyBreadth);
    AlsoShows(cy, y, HealthyBreadth);
    ReportedIs(cx, x, HealthyBreadth);
    ReportedIs(cy, y, HealthyBreadth);
    ReportedIs(cx, x, HeadConcentration);
    ReportedIs(cy, y, HeadConcentration);
    ScoutFormulas(ContextsOf(x), Facts(x), Scored(cx, x));
    ScoutFormulas(ContextsOf(y), Facts(y), Scored(cy, y));
    GuardianFormulas(ContextsOf(x), Facts(x), Scored(cx, x));
    GuardianFormulas(ContextsOf(y), Facts(y), Scored(cy, y));
    hide *;
    WideUp(Facts(x), Facts(y));
  }

  lemma AheadUp(b: BaseFacts, d: BaseFacts)
    requires Up(b.sector5m, d.sector5m)
    requires Up(b.sector15m, d.sector15m)
    requires Up(d.market5m, b.market5m)
    requires Up(d.market15m, b.market15m)
    ensures Orders(OrMissing(Strength(b)), OrMissing(Strength(d)))
  {
    hide Linear, Ppm, StrengthScore;
    if Strength(b).Some? && Strength(d).Some? {
      StrengthUp(b.sector5m.value, b.market5m.value, b.sector15m.value, b.market15m.value,
                 d.sector5m.value, d.market5m.value, d.sector15m.value, d.market15m.value);
    }
  }

  /** Up with the sector's returns, down with the market's. */
  lemma AheadDirection(cx: bool, x: MetricInput, cy: bool, y: MetricInput)
    requires Shows(cx, x, RelativeStrength) && Shows(cy, y, RelativeStrength)
    requires var b, d := Facts(x), Facts(y);
             && Up(b.sector5m, d.sector5m)
             && Up(b.sector15m, d.sector15m)
             && Up(d.market5m, b.market5m)
             && Up(d.market15m, b.market15m)
    ensures Orders(Reported(cx, x, RelativeStrength), Reported(cy, y, RelativeStrength))
  {
    ReportedIs(cx, x, RelativeStrength);
    ReportedIs(cy, y, RelativeStrength);
    ScoutFormulas(ContextsOf(x), Facts(x), Scored(cx, x));
    ScoutFormulas(ContextsOf(y), Facts(y), Scored(cy, y));
    hide *;
    AheadUp(Facts(x), Facts(y));
  }

  lemma TurnoverUp(b: BaseFacts, d: BaseFacts)
    requires Up(b.turnover, d.turnover)
    ensures Orders(OrMissing(TurnoverPpm(b)), OrMissing(TurnoverPpm(d)))
  {
    hide Linear, Ppm;
    if TurnoverPpm(b).Some? && TurnoverPpm(d).Some? {
      LinearMonotone(b.turnover.value, d.turnover.value, 1.10, 2.20);
      assert TurnoverScore(b.turnover.value)
             <= TurnoverScore(d.turnover.value);
      hide TurnoverScore;
      PpmMonotone(TurnoverScore(b.turnover.value),
                  TurnoverScore(d.turnover.value));
    }
  }

  /** Up with turnover. */
  lemma TurnoverDirection(cx: bool, x: MetricInput, cy: bool, y: MetricInput)
    requires Shows(cx, x, TurnoverConfirmation) && Shows(cy, y, TurnoverConfirmation)
    requires var b, d := Facts(x), Facts(y);
             && Up(b.turnover, d.turnover)
    ensures Orders(Reported(cx, x, TurnoverConfirmation), Reported(cy, y, TurnoverConfirmation))
  {
    ReportedIs(cx, x, TurnoverConfirmation);
    ReportedIs(cy, y, TurnoverConfirmation);
    ScoutFormulas(ContextsOf(x), Facts(x), Scored(cx, x));
    ScoutFormulas(ContextsOf(y), Facts(y), Scored(cy, y));
    hide *;
    TurnoverUp(Facts(x), Facts(y));
  }

  lemma EarlyFailureUp(r: real, w: real, t: real, r': real, w': real, t': real)
    requires r <= r' && w <= w' && t <= t'
    ensures Ppm(EarlyFailureScore(r, w, t)) <= Ppm(EarlyFailureScore(r', w', t'))
  {
    LinearMonotone(r, r', 0.010, 0.035);
    LinearMonotone(w, w', 0.15, 0.40);
    LinearMonotone(t, t', 0.30, 1.00);
    hide Linear, Ppm;
    PpmMonotone(EarlyFailureScore(r, w, t), EarlyFailureScore(r', w', t'));
  }

  lemma FailureUp(e: Option<EarlyEvidence>, e': Option<EarlyEvidence>, b: BaseFacts, d: BaseFacts)
    requires e.None? || e'.None? || e == e'
    requires Up(d.sectorDay, b.sectorDay) && Up(d.breadthDay, b.breadthDay) && Up(d.turnover, b.turnover)
    ensures Orders(if e.Some? then OrMissing(EarlyFailure(e.value, b)) else NotApplicable,
                   if e'.Some? then OrMissing(EarlyFailure(e'.value, d)) else NotApplicable)
  {
    hide EarlyFailureScore, Ppm;
    if e.Some? && e'.Some? {
      var r, w, t := e.value.dayReturn, e.value.breadth, e.value.turnover;
      EarlyFailureUp(r - b.sectorDay.value, w - b.breadthDay.value, t - b.turnover.value,
                     r - d.sectorDay.value, w - d.breadthDay.value, t - d.turnover.value);
    }
  }

  lemma EarlyAsGiven(x: MetricInput)
    ensures ContextsOf(x).early == None || ContextsOf(x).early == x.early
  {
  }

  /** Up as return, breadth and turnover fall behind the signal. */
  lemma EarlyFailureDirection(cx: bool, x: MetricInput, cy: bool, y: MetricInput)
    requires Shows(cx, x, EarlySignalFailure) && Shows(cy, y, EarlySignalFailure) && x.early == y.early
    requires var b, d := Facts(x), Facts(y);
             Up(d.sectorDay, b.sectorDay) && Up(d.breadthDay, b.breadthDay) && Up(d.turnover, b.turnover)
    ensures Orders(Reported(cx, x, EarlySignalFailure), Reported(cy, y, EarlySignalFailure))
  {
    ReportedIs(cx, x, EarlySignalFailure);
    ReportedIs(cy, y, EarlySignalFailure);
    GuardianFormulas(ContextsOf(x), Facts(x), Scored(cx, x));
    GuardianFormulas(ContextsOf(y), Facts(y), Scored(cy, y));
    EarlyAsGiven(x);
    EarlyAsGiven(y);
    hide *;
    FailureUp(ContextsOf(x).early, ContextsOf(y).early, Facts(x), Facts(y));
  }
}
