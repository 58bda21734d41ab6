/** What the facts behind the metrics say of the members: which count, how they moved, what they traded. */
module SectorFacts {
  import opened Wrappers
  import opened Sorting
  import opened Sequences
  import opened Text
  import opened Domain
  import opened OrderStatistics
  import opened HeadShare
  import opened MetricFormulas
  import opened MetricProducer
  import MarketMetrics
  import opened MetricMeaning

  // ---- who counts

  /** A member of the sector that is not suspended. */
  predicate InSector(x: MetricInput, m: Member) {
    m in x.primary && m.uid in x.sectorMembers && !m.knownSuspended && m.quote != SuspendedQuote
  }

  predicate Quoted(m: Member) {
    m.quote == ValidQuote && m.price.Some? && m.price.value > 0.0 && m.preClose.Some? && m.preClose.value > 0.0
  }

  lemma {:induction false} PickMembers(byUid: map<string, Member>, uids: seq<string>, m: Member)
    ensures m in Pick(byUid, uids) <==> exists uid <- uids :: uid in byUid && byUid[uid] == m
  {
    if uids != [] { PickMembers(byUid, uids[1..], m); }
  }

  lemma IndexOfPrimary(x: MetricInput, m: Member)
    requires ValidInput(x)
    ensures var byUid := Index(MemberUid, Itself<Member>, x.primary);
            (exists uid <- x.sectorMembers :: uid in byUid && byUid[uid] == m)
            <==> m in x.primary && m.uid in x.sectorMembers
  {
    var byUid := Index(MemberUid, Itself<Member>, x.primary);
    forall uid | uid in x.sectorMembers && uid in byUid ensures byUid[uid] in x.primary && byUid[uid].uid == uid {
      IndexKeys(MemberUid, Itself<Member>, x.primary, uid);
      var i :| 0 <= i < |x.primary| && MemberUid(x.primary[i]) == uid;
      IndexValue(MemberUid, Itself<Member>, x.primary, i);
    }
    if m in x.primary {
      var i :| 0 <= i < |x.primary| && x.primary[i] == m;
      IndexValue(MemberUid, Itself<Member>, x.primary, i);
    }
    hide Index;
  }

  /** The members of the sector are those listed for it, whatever the order of either list. */
  lemma SectorExactly(x: MetricInput, m: Member)
    requires ValidInput(x)
    ensures m in SectorMembers(x) <==> m in x.primary && m.uid in x.sectorMembers
  {
    var byUid, uids := Index(MemberUid, Itself<Member>, x.primary), SortBy(StringLeq, x.sectorMembers);
    PickMembers(byUid, uids, m);
    IndexOfPrimary(x, m);
    PermutationMembers(uids, x.sectorMembers);
    hide Index, SortBy;
  }

  /** The members that the metrics are computed from. */
  lemma CountedExactly(x: MetricInput, m: Member)
    requires ValidInput(x)
    ensures m in Filter(Active, SectorMembers(x)) <==> InSector(x, m)
    ensures m in ValidSector(x) <==> InSector(x, m) && Quoted(m)
  {
    SectorExactly(x, m);
    FilterMembers(Active, SectorMembers(x));
    FilterMembers(HasValidQuote, Filter(Active, SectorMembers(x)));
    hide SectorMembers, Filter;
  }

  /** An evaluation needs a completed minute in a continuous session, or the final snapshot after the close. */
  lemma QualityInputsExactly(x: MetricInput)
    ensures QualityInputsOf(x)
            == QualityInputs(
                 x.completeMinute
                 && (x.phase == ContinuousAm || x.phase == ContinuousPm || (x.phase == Closed && x.finalSnapshot)),
                 x.historicalCoverage, x.providerFit, x.providerLimited, x.contextFit)
  {
  }

  // ---- how they moved

  /** r is how far the second price is above the first. */
  ghost predicate Rate(now: Option<real>, before: Option<real>, r: real) {
    now.Some? && before.Some? && now.value > 0.0 && before.value > 0.0 && (1.0 + r) * before.value == now.value
  }

  /** The member's return of a kind: over the day, five or fifteen minutes, or the five minutes before. */
  ghost predicate Moved(kind: ReturnKind, m: Member, r: real) {
    match kind
    case DayReturn => Rate(m.price, m.preClose, r)
    case Return5m => Rate(m.price, m.close5m, r)
    case Return15m => Rate(m.price, m.close15m, r)
    case PreviousReturn5m => Rate(m.close5m, m.close10m, r)
  }

  ghost predicate AllMoved(kind: ReturnKind, members: seq<Member>, rates: seq<real>) {
    |rates| == |members| && forall i :: 0 <= i < |rates| ==> Moved(kind, members[i], rates[i])
  }

  function Rising(rates: seq<real>): nat {
    if rates == [] then 0 else (if rates[0] > 0.0 then 1 else 0) + Rising(rates[1..])
  }

  lemma RateExactly(now: Option<real>, before: Option<real>, r: real)
    ensures Rate(now, before, r) <==> Return(now, before) == Some(r)
  {
    if now.Some? && before.Some? && now.value > 0.0 && before.value > 0.0 {
      var n, b := now.value, before.value;
      assert n / b * b == n;
      if (1.0 + r) * b == n { QuotientIs(n, b, 1.0 + r); }
    }
  }

  lemma MovedExactly(kind: ReturnKind, m: Member, r: real)
    ensures Moved(kind, m, r) <==> ReturnOf(kind, m) == Some(r)
  {
    RateExactly(m.price, m.preClose, r);
    RateExactly(m.price, m.close5m, r);
    RateExactly(m.price, m.close15m, r);
    RateExactly(m.close5m, m.close10m, r);
    hide Return, Rate;
  }

  lemma {:induction false} RisingCount(rates: seq<real>)
    ensures |Filter(Positive, rates)| == Rising(rates)
  {
    if rates != [] { RisingCount(rates[1..]); }
  }

  lemma {:induction false} AllKnownExactly(values: seq<Option<real>>)
    ensures AllKnown(values) <==> forall v <- values :: v.Some?
    ensures |Filter(Known, values)| <= |values|
  {
    if values != [] {
      AllKnownExactly(values[1..]);
      assert values == [values[0]] + values[1..];
    }
  }

  /** The share is `count` of `n`. */
  ghost predicate ShareIs(share: Option<real>, count: nat, n: nat) {
    share.Some? && share.value * n as real == count as real
  }

  /** Known moves of all members: their robust return, and the share of them that rose. */
  ghost predicate Sums(rates: seq<real>, move: Option<real>, breadth: Option<real>) {
    move == RobustReturn(rates) && ShareIs(breadth, Rising(rates), |rates|)
  }

  lemma QuotientTimes(count: real, n: real)
    requires n > 0.0
    ensures count / n * n == count
  {
  }

  lemma KnownMean(values: seq<Option<real>>, rates: seq<real>)
    requires |values| == |rates| > 0 && forall i :: 0 <= i < |rates| ==> values[i] == Some(rates[i])
    ensures Sums(rates, RobustAndBreadth(values).0, RobustAndBreadth(values).1)
  {
    AllKnownExactly(values);
    assert Map(OrZero, values) == rates;
    ShareRising(rates);
    hide Filter, RobustReturn, AllKnown, Map, Rising, PositiveShare, ShareIs;
  }

  lemma RatioTimes(c: real, d: real)
    requires d > 0.0
    ensures Ratio(Some(c), Some(d)).Some? && Ratio(Some(c), Some(d)).value * d == c
  {
    QuotientTimes(c, d);
  }

  lemma RatioIs(count: nat, n: nat)
    requires n > 0
    ensures ShareIs(Ratio(Some(count as real), Some(n as real)), count, n)
  {
    RatioTimes(count as real, n as real);
    hide Ratio;
  }

  lemma ShareRising(rates: seq<real>)
    requires rates != []
    ensures ShareIs(PositiveShare(rates), Rising(rates), |rates|)
  {
    RisingCount(rates);
    RatioIs(|Filter(Positive, rates)|, |rates|);
    hide Filter, Rising, ShareIs, Ratio;
  }

  lemma MovesMean(kind: ReturnKind, members: seq<Member>, rates: seq<real>)
    requires members != [] && AllMoved(kind, members, rates)
    ensures Sums(rates, ReturnAndBreadth(members, kind).0, ReturnAndBreadth(members, kind).1)
  {
    var values := Map(m => ReturnOf(kind, m), members);
    forall i | 0 <= i < |members| ensures values[i] == Some(rates[i]) {
      assert Moved(kind, members[i], rates[i]);
      MovedExactly(kind, members[i], rates[i]);
    }
    hide RobustAndBreadth, Moved, ReturnOf, Sums, Map;
    KnownMean(values, rates);
  }

  /** One member without a known move leaves both unknown. */
  lemma MovesUnknown(kind: ReturnKind, members: seq<Member>)
    requires members == [] || exists m <- members :: forall r :: !Moved(kind, m, r)
    ensures ReturnAndBreadth(members, kind) == (None, None)
  {
    var values := Map(m => ReturnOf(kind, m), members);
    if members != [] {
      var m :| m in members && forall r :: !Moved(kind, m, r);
      var i :| 0 <= i < |members| && members[i] == m;
      if ReturnOf(kind, m).Some? { MovedExactly(kind, m, ReturnOf(kind, m).value); }
      AllKnownExactly(values);
      assert values[i] == ReturnOf(kind, m) && values[i] in values;
    }
  }

  /** The returns and breadths of the sector are those of its counted members, over the named prices. */
  lemma SectorMoves(x: MetricInput, kind: ReturnKind, rates: seq<real>)
    requires ValidSector(x) != [] && AllMoved(kind, ValidSector(x), rates)
    ensures var b := Facts(x);
            match kind
            case DayReturn => Sums(rates, b.sectorDay, b.breadthDay)
            case Return5m => Sums(rates, b.sector5m, b.breadth5m)
            case Return15m => b.sector15m == RobustReturn(rates)
            case PreviousReturn5m => Sums(rates, b.previousSector5m, b.previousBreadth5m)
  {
    MovesMean(kind, ValidSector(x), rates);
    hide ValidSector, ReturnAndBreadth, RobustReturn, HistoricalBaselines, CoreStatsOf, Divergence, ShareOfHead,
         InactiveRatio, AmountTotal, Ratio, OrderedObservations, Rising, Moved, Filter;
  }

  /** Those of the market are of every member that can be traded. */
  lemma MarketMoves(x: MetricInput, kind: ReturnKind, rates: seq<real>)
    requires Filter(Tradable, x.primary) != [] && AllMoved(kind, Filter(Tradable, x.primary), rates)
    ensures var b := Facts(x);
            match kind
            case DayReturn => b.marketDay == RobustReturn(rates)
            case Return5m => b.market5m == RobustReturn(rates)
            case Return15m => b.market15m == RobustReturn(rates)
            case PreviousReturn5m => true
  {
    MovesMean(kind, Filter(Tradable, x.primary), rates);
    hide ValidSector, ReturnAndBreadth, RobustReturn, HistoricalBaselines, CoreStatsOf, Divergence, ShareOfHead,
         InactiveRatio, AmountTotal, Ratio, OrderedObservations, Rising, Moved, Filter;
  }

  // ---- what they traded

  datatype AmountKind = Traded5m | Traded15m | TradedBefore

  function AmountOf(kind: AmountKind, m: Member): Option<real> {
    match kind case Traded5m => m.amount5m case Traded15m => m.amount15m case TradedBefore => m.previousAmount5m
  }

  ghost predicate AllTraded(kind: AmountKind, members: seq<Member>, amounts: seq<real>) {
    && |amounts| == |members|
    && forall i :: 0 <= i < |amounts| ==> AmountOf(kind, members[i]) == Some(amounts[i]) && amounts[i] >= 0.0
  }

  function Idle(amounts: seq<real>): nat {
    if amounts == [] then 0 else (if amounts[0] == 0.0 then 1 else 0) + Idle(amounts[1..])
  }

  lemma {:induction false} IdleCount(amounts: seq<real>)
    ensures |Filter(IsZero, amounts)| == Idle(amounts)
  {
    if amounts != [] { IdleCount(amounts[1..]); }
  }

  lemma {:induction false} AllNonNegative(values: seq<Option<real>>)
    ensures |Filter(NonNegativeAmount, values)| == |values| <==> forall v <- values :: v.Some? && v.value >= 0.0
    ensures |Filter(NonNegativeAmount, values)| <= |values|
  {
    if values != [] {
      AllNonNegative(values[1..]);
      assert values == [values[0]] + values[1..];
    }
  }

  lemma TotalOfKnown(values: seq<Option<real>>, amounts: seq<real>)
    requires |values| == |amounts| > 0
    requires forall i :: 0 <= i < |amounts| ==> values[i] == Some(amounts[i]) && amounts[i] >= 0.0
    ensures AmountTotal(values) == Some(Sum(amounts))
    ensures ShareIs(InactiveRatio(values), Idle(amounts), |amounts|)
  {
    AllNonNegative(values);
    assert Map(OrZero, values) == amounts;
    IdleCount(amounts);
    RatioIs(Idle(amounts), |amounts|);
    hide Filter, Idle, Ratio, ShareIs, Map, Sum;
  }

  /** One amount missing or negative leaves the total and the idle share unknown. */
  lemma TotalUnknown(values: seq<Option<real>>)
    requires values == [] || exists v <- values :: v.None? || v.value < 0.0
    ensures AmountTotal(values) == None && InactiveRatio(values) == None
  {
    AllNonNegative(values);
    hide Filter;
  }

  /** The amounts of the sector are the sums over its counted members, and the idle ones traded nothing. */
  lemma SectorAmounts(x: MetricInput, kind: AmountKind, amounts: seq<real>)
    requires ValidSector(x) != [] && AllTraded(kind, ValidSector(x), amounts)
    ensures var b := Facts(x);
            match kind
            case Traded5m => b.amount5m == Some(Sum(amounts)) && ShareIs(b.inactive, Idle(amounts), |amounts|)
            case Traded15m => b.amount15m == Some(Sum(amounts))
            case TradedBefore => b.previousAmount == Some(Sum(amounts))
  {
    var members := ValidSector(x);
    assert Map((m: Member) => m.amount5m, members) == Map(m => AmountOf(Traded5m, m), members);
    assert Map((m: Member) => m.amount15m, members) == Map(m => AmountOf(Traded15m, m), members);
    assert Map((m: Member) => m.previousAmount5m, members) == Map(m => AmountOf(TradedBefore, m), members);
    TotalOfKnown(Map(m => AmountOf(kind, m), members), amounts);
    hide ValidSector, ReturnAndBreadth, RobustReturn, HistoricalBaselines, CoreStatsOf, Divergence, ShareOfHead,
         InactiveRatio, AmountTotal, Ratio, OrderedObservations, Idle, Sum, ShareIs, Map;
  }

  /** Turnover is the amount over its baseline, known if both are and the baseline is positive. */
  lemma TurnoverExactly(x: MetricInput)
    ensures var b := Facts(x);
            && (b.turnover.Some? <==>
                  b.amount5m.Some? && b.turnoverBaseline.Some? && b.turnoverBaseline.value > 0.0)
            && (b.turnover.Some? ==> b.turnover.value * b.turnoverBaseline.value == b.amount5m.value)
  {
    hide ValidSector, ReturnAndBreadth, RobustReturn, HistoricalBaselines, CoreStatsOf, Divergence, ShareOfHead,
         InactiveRatio, AmountTotal, OrderedObservations, Map, Ratio;
    var b := Facts(x);
    assert b.turnover == Ratio(b.amount5m, b.turnoverBaseline);
    RatioExactly(b.amount5m, b.turnoverBaseline);
  }

  lemma RatioExactly(c: Option<real>, d: Option<real>)
    ensures Ratio(c, d).Some? <==> c.Some? && d.Some? && d.value > 0.0
    ensures Ratio(c, d).Some? ==> Ratio(c, d).value * d.value == c.value
  {
    if c.Some? && d.Some? && d.value > 0.0 { QuotientTimes(c.value, d.value); }
  }

  /** The head share is that of the amounts of the counted members; one amount missing leaves it unknown. */
  lemma HeadShareExactly(x: MetricInput, amounts: seq<real>)
    requires AllTraded(Traded5m, ValidSector(x), amounts)
    ensures Facts(x).headShare
            == Share(seq(|amounts|, i requires 0 <= i < |amounts| => Holding(ValidSector(x)[i].uid, amounts[i])))
  {
    var members := ValidSector(x);
    var reported := Map((m: Member) => HeadShare.Reported(m.uid, m.amount5m), members);
    forall i | 0 <= i < |members|
      ensures reported[i] == HeadShare.Reported(members[i].uid, Some(amounts[i])) && amounts[i] >= 0.0
    {
      assert AmountOf(Traded5m, members[i]) == Some(amounts[i]);
    }
    assert HeadShare.Usable(reported);
    assert Holdings(reported)
           == seq(|amounts|, i requires 0 <= i < |amounts| => Holding(members[i].uid, amounts[i]));
    hide ValidSector, ReturnAndBreadth, RobustReturn, HistoricalBaselines, CoreStatsOf, Divergence, Share,
         InactiveRatio, AmountTotal, Ratio, OrderedObservations;
  }

  // ---- what they used to trade

  /** The window holds a non-negative amount for every member, `held` in their order. */
  ghost predicate Covering(w: Window, uids: seq<string>, held: seq<Holding>) {
    && |held| == |uids|
    && forall i :: 0 <= i < |uids| ==> held[i].uid == uids[i] && held[i] in w.amounts && held[i].amount >= 0.0
  }

  lemma HeldAmount(w: Window, h: Holding)
    requires DistinctBy(HoldingUid, w.amounts) && h in w.amounts
    ensures var byUid := Index(HoldingUid, HoldingAmount, w.amounts); h.uid in byUid && byUid[h.uid] == h.amount
  {
    var i :| 0 <= i < |w.amounts| && w.amounts[i] == h;
    IndexValue(HoldingUid, HoldingAmount, w.amounts, i);
  }

  /** A window counts with its total and head share if it covers every member and traded at all. */
  lemma WindowExactly(w: Window, uids: seq<string>, held: seq<Holding>)
    requires DistinctBy(HoldingUid, w.amounts) && uids != [] && Covering(w, uids, held)
    ensures 1 <= HeadCount(|held|) <= |held|
    ensures WindowFigures(w, uids)
            == if Total(held) <= 0.0 then None
               else Some((Total(held), HeadTotal(held, HeadCount(|held|)) / Total(held)))
  {
    var byUid := Index(HoldingUid, HoldingAmount, w.amounts);
    HeadCountFits(|held|);
    forall i | 0 <= i < |uids| ensures uids[i] in byUid && byUid[uids[i]] == held[i].amount {
      HeldAmount(w, held[i]);
    }
    hide Index, HeadTotal, Total, HeadCount;
    assert MetricProducer.Covers(byUid, uids);
    assert MetricProducer.Current(byUid, uids) == held;
  }

  /** A window that misses a member does not count. */
  lemma WindowMisses(w: Window, uids: seq<string>, uid: string)
    requires uids != [] && uid in uids && forall h <- w.amounts :: h.uid != uid
    ensures WindowFigures(w, uids) == None
  {
    IndexKeys(HoldingUid, HoldingAmount, w.amounts, uid);
    forall i | 0 <= i < |w.amounts| ensures HoldingUid(w.amounts[i]) != uid { assert w.amounts[i] in w.amounts; }
    hide Index;
  }

  /** The baselines are the medians over the windows that count, if there are three. */
  lemma BaselinesExactly(windows: seq<Window>, uids: seq<string>, figures: seq<(real, real)>)
    requires uids != [] && figures == FiguresOf(SortBy(DateFirst, windows), uids)
    ensures HistoricalBaselines(windows, uids)
            == if |figures| < 3 then (None, None)
               else (Median(seq(|figures|, i requires 0 <= i < |figures| => figures[i].0)),
                     Median(seq(|figures|, i requires 0 <= i < |figures| => figures[i].1)))
  {
    hide FiguresOf, SortBy, Median;
    assert Firsts(figures) == seq(|figures|, i requires 0 <= i < |figures| => figures[i].0);
    assert Seconds(figures) == seq(|figures|, i requires 0 <= i < |figures| => figures[i].1);
    hide Firsts, Seconds;
  }

  lemma FactBaselines(x: MetricInput)
    ensures var b, uids := Facts(x), Map(MemberUid, ValidSector(x));
            (b.turnoverBaseline, b.headBaseline) == HistoricalBaselines(x.windows, uids)
  {
    hide ValidSector, ReturnAndBreadth, HistoricalBaselines, CoreStatsOf, Divergence, ShareOfHead, InactiveRatio,
         AmountTotal, Ratio, OrderedObservations, Map;
  }

  // ---- the largest members

  /** Twenty days of positive amounts, and a known five-minute return. */
  ghost predicate Eligible(m: Member) {
    && |m.dailyAmounts| >= 20
    && (forall i :: |m.dailyAmounts| - 20 <= i < |m.dailyAmounts| ==> m.dailyAmounts[i] > 0.0)
    && exists r :: Moved(Return5m, m, r)
  }

  lemma {:induction false} AllPositive(s: seq<real>)
    ensures |Filter(Positive, s)| == |s| <==> forall v <- s :: v > 0.0
    ensures |Filter(Positive, s)| <= |s|
  {
    if s != [] {
      AllPositive(s[1..]);
      assert s == [s[0]] + s[1..];
      assert forall v <- s[1..] :: v in s;
      assert s[0] in s;
    }
  }

  lemma EligibleExactly(m: Member)
    ensures CoreEligible(m) <==> Eligible(m)
  {
    if |m.dailyAmounts| >= 20 {
      var last := Last20(m);
      AllPositive(last);
      assert forall i | |m.dailyAmounts| - 20 <= i < |m.dailyAmounts| ::
          m.dailyAmounts[i] == last[i - (|m.dailyAmounts| - 20)];
      assert forall v <- last :: v in m.dailyAmounts;
      if ReturnOf(Return5m, m).Some? { MovedExactly(Return5m, m, ReturnOf(Return5m, m).value); }
      forall r ensures Moved(Return5m, m, r) <==> ReturnOf(Return5m, m) == Some(r) { MovedExactly(Return5m, m, r); }
      hide Filter, Moved, ReturnOf;
      if Eligible(m) {
        forall v | v in last ensures v > 0.0 {
          var k :| 0 <= k < |last| && last[k] == v;
          assert m.dailyAmounts[k + (|m.dailyAmounts| - 20)] == v;
        }
      }
      if CoreEligible(m) {
        forall i | |m.dailyAmounts| - 20 <= i < |m.dailyAmounts| ensures m.dailyAmounts[i] > 0.0 {
          assert last[i - (|m.dailyAmounts| - 20)] in last;
        }
      }
    }
  }

  /** One member in five, at least three and at most ten. */
  lemma CoreCountExactly(n: nat)
    ensures 3 <= CoreCount(n) <= 10
    ensures CoreCount(n) < 10 ==> 5 * CoreCount(n) >= n
    ensures CoreCount(n) > 3 ==> 5 * (CoreCount(n) - 1) < n
  {
  }

  /** What the member traded over the last twenty days. */
  function Amount20(m: Member): real {
    if |m.dailyAmounts| < 20 then 0.0 else Sum(m.dailyAmounts[|m.dailyAmounts| - 20..])
  }

  lemma LargestOrder()
    ensures TotalPreorder(LargestFirst)
  {
    StringOrder();
    hide StringLeq, Sum, Last20;
  }

  /** The core is the eligible members with the largest amounts, the rest everyone else. */
  ghost predicate Leads(members: seq<Member>, core: seq<Member>, rest: seq<Member>) {
    && (forall c <- core :: c in members && Eligible(c))
    && (forall c <- core, m <- members :: Eligible(m) && m !in core ==> Amount20(m) <= Amount20(c))
    && (forall m :: m in rest <==> m in members && m !in core)
  }

  lemma CoreAndRest(members: seq<Member>) returns (core: seq<Member>, rest: seq<Member>)
    requires DistinctBy(MemberUid, members) && |Filter(CoreEligible, members)| >= 3
    ensures |core| == CoreCount(|Filter(CoreEligible, members)|) && Leads(members, core, rest)
    ensures CoreStatsOf(members)
            == if rest == [] || !AllKnown(Map(m => ReturnOf(Return5m, m), rest)) then None
               else Some(CoreStats(
                           SortBy(StringLeq, Map(MemberUid, core)),
                           RobustReturn(Map(OrZero, Map(m => ReturnOf(Return5m, m), core))),
                           RobustReturn(Map(OrZero, Map(m => ReturnOf(Return5m, m), rest))),
                           PositiveShare(Map(OrZero, Map(m => ReturnOf(Return5m, m), core)))))
  {
    var eligible := Filter(CoreEligible, members);
    var ordered, k := SortBy(LargestFirst, eligible), CoreCount(|eligible|);
    core := ordered[..k];
    var uids := Map(MemberUid, core);
    rest := Filter((m: Member) => m.uid !in uids, members);
    StatsOfCore(members, eligible, core, uids, rest);
    hide *;
    CoreIsLeading(members, eligible, core, uids, rest);
  }

  lemma CoreIsLeading(
    members: seq<Member>, eligible: seq<Member>, core: seq<Member>, uids: seq<string>, rest: seq<Member>)
    requires DistinctBy(MemberUid, members) && eligible == Filter(CoreEligible, members) && |eligible| >= 3
    requires core == SortBy(LargestFirst, eligible)[..CoreCount(|eligible|)] && uids == Map(MemberUid, core)
    requires rest == Filter((m: Member) => m.uid !in uids, members)
    ensures Leads(members, core, rest)
  {
    var ordered := SortBy(LargestFirst, eligible);
    hide CoreEligible, Filter, Map, SortBy, Eligible, Amount20, LargestFirst;
    CoreLeads(members, eligible, ordered, CoreCount(|eligible|));
    RestIsOthers(members, core, uids, rest);
  }

  lemma StatsOfCore(
    members: seq<Member>, eligible: seq<Member>, core: seq<Member>, uids: seq<string>, rest: seq<Member>)
    requires eligible == Filter(CoreEligible, members) && |eligible| >= 3
    requires core == SortBy(LargestFirst, eligible)[..CoreCount(|eligible|)] && uids == Map(MemberUid, core)
    requires rest == Filter((m: Member) => m.uid !in uids, members)
    ensures |core| == CoreCount(|eligible|)
    ensures CoreStatsOf(members)
            == if rest == [] || !AllKnown(Map(m => ReturnOf(Return5m, m), rest)) then None
               else Some(CoreStats(
                           SortBy(StringLeq, uids),
                           RobustReturn(Map(OrZero, Map(m => ReturnOf(Return5m, m), core))),
                           RobustReturn(Map(OrZero, Map(m => ReturnOf(Return5m, m), rest))),
                           PositiveShare(Map(OrZero, Map(m => ReturnOf(Return5m, m), core)))))
  {
    hide RobustReturn, PositiveShare, AllKnown, ReturnOf, SortBy, Filter, Map, OrZero, CoreEligible;
  }

  lemma CoreLeads(members: seq<Member>, eligible: seq<Member>, ordered: seq<Member>, k: nat)
    requires eligible == Filter(CoreEligible, members) && ordered == SortBy(LargestFirst, eligible) && k <= |ordered|
    ensures forall c <- ordered[..k] :: c in members && Eligible(c)
    ensures forall c <- ordered[..k], m <- members :: Eligible(m) && m !in ordered[..k] ==> Amount20(m) <= Amount20(c)
  {
    LargestOrder();
    SortBySorted(LargestFirst, eligible);
    PermutationMembers(ordered, eligible);
    FilterMembers(CoreEligible, members);
    forall m ensures CoreEligible(m) <==> Eligible(m) { EligibleExactly(m); }
    hide CoreEligible, Filter, SortBy, Sum;
    forall c | c in ordered[..k] ensures c in ordered { }
    forall c, m | c in ordered[..k] && m in members && Eligible(m) && m !in ordered[..k]
      ensures Amount20(m) <= Amount20(c)
    {
      var i :| 0 <= i < k && ordered[i] == c;
      assert m in ordered;
      var j :| 0 <= j < |ordered| && ordered[j] == m;
      assert LargestFirst(ordered[i], ordered[j]);
      LargestAmounts(c, m);
    }
  }

  lemma LargestAmounts(c: Member, m: Member)
    requires LargestFirst(c, m) && |c.dailyAmounts| >= 20 && |m.dailyAmounts| >= 20
    ensures Amount20(m) <= Amount20(c)
  {
  }

  lemma RestIsOthers(members: seq<Member>, core: seq<Member>, uids: seq<string>, rest: seq<Member>)
    requires DistinctBy(MemberUid, members) && uids == Map(MemberUid, core) && forall c <- core :: c in members
    requires rest == Filter((m: Member) => m.uid !in uids, members)
    ensures forall m :: m in rest <==> m in members && m !in core
  {
    FilterMembers((m: Member) => m.uid !in uids, members);
    forall m | m in members ensures m.uid in uids <==> m in core {
      if m.uid in uids {
        var c := MappedFrom(MemberUid, core, m.uid);
        SameKeySameElement(MemberUid, members, m, c);
      }
      if m in core { MappedMember(MemberUid, core, m); }
    }
    hide Filter, Map;
  }

  /** The stats of the core, over the named amounts and returns; without three eligible members there are none. */
  lemma CoreMeans(members: seq<Member>)
    returns (core: seq<Member>, rest: seq<Member>, coreRates: seq<real>, restRates: seq<real>)
    requires DistinctBy(MemberUid, members) && |Filter(CoreEligible, members)| >= 3
    ensures |core| == CoreCount(|Filter(CoreEligible, members)|) && Leads(members, core, rest)
    ensures CoreStatsOf(members).Some? <==> rest != [] && forall m <- rest :: exists r :: Moved(Return5m, m, r)
    ensures CoreStatsOf(members).Some? ==>
              && AllMoved(Return5m, core, coreRates) && AllMoved(Return5m, rest, restRates)
              && Sums(coreRates, CoreStatsOf(members).value.core, CoreStatsOf(members).value.breadth)
              && CoreStatsOf(members).value.noncore == RobustReturn(restRates)
  {
    core, rest := CoreAndRest(members);
    coreRates, restRates := Map(OrZero, Map(m => ReturnOf(Return5m, m), core)), Map(OrZero, Map(m => ReturnOf(Return5m, m), rest));
    KnownRates(core);
    KnownRates(rest);
    CoreCountExactly(|Filter(CoreEligible, members)|);
    ShareRising(coreRates);
    hide CoreStatsOf, Filter, Map, Moved, ReturnOf, AllKnown, RobustReturn, PositiveShare, CoreCount, SortBy, ShareIs;
  }

  /** Members that all moved have their returns for rates. */
  lemma KnownRates(members: seq<Member>)
    ensures AllKnown(Map(m => ReturnOf(Return5m, m), members))
            <==> forall m <- members :: exists r :: Moved(Return5m, m, r)
    ensures (forall m <- members :: exists r :: Moved(Return5m, m, r)) ==>
              AllMoved(Return5m, members, Map(OrZero, Map(m => ReturnOf(Return5m, m), members)))
  {
    var values := Map(m => ReturnOf(Return5m, m), members);
    AllKnownExactly(values);
    forall m | m in members
      ensures ReturnOf(Return5m, m).Some? <==> exists r :: Moved(Return5m, m, r)
      ensures ReturnOf(Return5m, m).Some? ==> Moved(Return5m, m, ReturnOf(Return5m, m).value)
    {
      if ReturnOf(Return5m, m).Some? { MovedExactly(Return5m, m, ReturnOf(Return5m, m).value); }
      forall r ensures Moved(Return5m, m, r) <==> ReturnOf(Return5m, m) == Some(r) { MovedExactly(Return5m, m, r); }
    }
    hide AllKnown, Moved, ReturnOf;
    forall i | 0 <= i < |members| ensures values[i] == ReturnOf(Return5m, members[i]) && members[i] in members {}
    if forall v <- values :: v.Some? {
      forall m | m in members ensures ReturnOf(Return5m, m).Some? {
        var i :| 0 <= i < |members| && members[i] == m;
        assert values[i] in values;
      }
    }
    if forall m <- members :: exists r :: Moved(Return5m, m, r) {
      forall v | v in values ensures v.Some? {
        var i :| 0 <= i < |values| && values[i] == v;
      }
    }
  }

  lemma FactCore(x: MetricInput)
    ensures Facts(x).core == CoreStatsOf(ValidSector(x))
  {
    hide ValidSector, ReturnAndBreadth, HistoricalBaselines, CoreStatsOf, Divergence, ShareOfHead, InactiveRatio,
         AmountTotal, Ratio, OrderedObservations, Map;
  }

  lemma {:induction false} PickDistinct(byUid: map<string, Member>, uids: seq<string>)
    requires DistinctBy(Itself<string>, uids) && forall uid <- uids :: uid in byUid ==> byUid[uid].uid == uid
    ensures DistinctBy(MemberUid, Pick(byUid, uids))
    ensures forall m <- Pick(byUid, uids) :: m.uid in uids
  {
    if uids != [] {
      assert uids == [uids[0]] + uids[1..];
      assert DistinctBy(Itself<string>, uids[1..]) by {
        forall i, j | 0 <= i < j < |uids[1..]| ensures uids[1..][i] != uids[1..][j] {
          assert uids[i + 1] == Itself(uids[i + 1]) && uids[j + 1] == Itself(uids[j + 1]);
        }
      }
      PickDistinct(byUid, uids[1..]);
      forall k | 0 <= k < |uids[1..]| ensures uids[1..][k] != uids[0] {
        assert Itself(uids[0]) != Itself(uids[k + 1]);
      }
    }
  }

  /** The counted members are told apart by their identifiers. */
  lemma CountedDistinct(x: MetricInput)
    requires ValidInput(x)
    ensures DistinctBy(MemberUid, ValidSector(x)) && DistinctBy(MemberUid, Filter(Active, SectorMembers(x)))
  {
    var byUid, uids := Index(MemberUid, Itself<Member>, x.primary), SortBy(StringLeq, x.sectorMembers);
    forall uid | uid in byUid ensures byUid[uid].uid == uid {
      IndexKeys(MemberUid, Itself<Member>, x.primary, uid);
      var i :| 0 <= i < |x.primary| && MemberUid(x.primary[i]) == uid;
      IndexValue(MemberUid, Itself<Member>, x.primary, i);
    }
    assert NoRepeats(x.sectorMembers) by {
      forall i, j | 0 <= i < j < |x.sectorMembers| ensures x.sectorMembers[i] != x.sectorMembers[j] {
        assert Itself(x.sectorMembers[i]) != Itself(x.sectorMembers[j]);
      }
    }
    NoRepeatsPermutation(x.sectorMembers, uids);
    PickDistinct(byUid, uids);
    FilterDistinct(MemberUid, Active, SectorMembers(x));
    FilterDistinct(MemberUid, HasValidQuote, Filter(Active, SectorMembers(x)));
  }

  // ---- divergence

  /** How many moved against the direction. */
  function Against(rates: seq<real>, direction: real): nat {
    if rates == [] then 0 else (if rates[0] * direction < 0.0 then 1 else 0) + Against(rates[1..], direction)
  }

  /** How far each is from the middle. */
  ghost predicate Distances(rates: seq<real>, middle: real, distances: seq<real>) {
    && |distances| == |rates|
    && forall i :: 0 <= i < |rates| ==>
         distances[i] == if rates[i] < middle then middle - rates[i] else rates[i] - middle
  }

  lemma {:induction false} AgainstCount(rates: seq<real>, direction: real)
    ensures |Filter(v => v * direction < 0.0, rates)| == Against(rates, direction)
  {
    if rates != [] { AgainstCount(rates[1..], direction); }
  }

  /** The share of those that moved against the direction. */
  function ShareAgainst(rates: seq<real>, direction: real): real
    requires rates != []
  {
    Against(rates, direction) as real / |rates| as real
  }

  lemma DistancesOf(rates: seq<real>, middle: real, distances: seq<real>)
    requires Distances(rates, middle, distances)
    ensures Map(v => Abs(v - middle), rates) == distances
  {
    forall i | 0 <= i < |rates| ensures Map(v => Abs(v - middle), rates)[i] == distances[i] {
      assert Map(v => Abs(v - middle), rates)[i] == Abs(rates[i] - middle);
    }
  }

  lemma DivergenceIs(values: seq<Option<real>>, rates: seq<real>, sector: real, share: real)
    requires |values| == |rates| > 0 && forall i :: 0 <= i < |rates| ==> values[i] == Some(rates[i])
    requires share == if -0.002 < sector < 0.002 then 0.0 else ShareAgainst(rates, sector)
    ensures var middle := Median(rates).value;
            Divergence(values, Some(sector))
            == Some(Ppm(DivergenceScore(Median(Map(v => Abs(v - middle), rates)).value, share)))
  {
    AllKnownExactly(values);
    assert Map(OrZero, values) == rates;
    AgainstCount(rates, sector);
    hide Ppm, Median, Filter, AllKnown, Against, Map, DivergenceScore;
  }

  lemma DivergenceOf(
    values: seq<Option<real>>, rates: seq<real>, sector: real, distances: seq<real>, share: real, f: real, g: real)
    requires |values| == |rates| > 0 && forall i :: 0 <= i < |rates| ==> values[i] == Some(rates[i])
    requires Distances(rates, Median(rates).value, distances)
    requires share == if -0.002 < sector < 0.002 then 0.0 else ShareAgainst(rates, sector)
    requires Along(Median(distances).value, 0.006, 0.020, f) && Along(share, 0.30, 0.60, g)
    ensures Near(OrMissing(Divergence(values, Some(sector))), 0.55 * f + 0.45 * g)
  {
    DivergenceIs(values, rates, sector, share);
    DistancesOf(rates, Median(rates).value, distances);
    LinearAlong(Median(distances).value, 0.006, 0.020, f);
    LinearAlong(share, 0.30, 0.60, g);
    hide Linear, Along, Near, Ppm, Median, ShareAgainst, Divergence, Distances;
    NearScore(0.55 * f + 0.45 * g);
  }

  /** Divergence: how far members are from their middle, and how many move against the sector. */
  lemma DivergenceMeans(x: MetricInput, rates: seq<real>, distances: seq<real>, share: real, f: real, g: real)
    requires ValidSector(x) != [] && AllMoved(Return5m, ValidSector(x), rates)
    requires Distances(rates, Median(rates).value, distances)
    requires var sector := RobustReturn(rates).value;
             share == if -0.002 < sector < 0.002 then 0.0 else ShareAgainst(rates, sector)
    requires Along(Median(distances).value, 0.006, 0.020, f) && Along(share, 0.30, 0.60, g)
    ensures Near(OrMissing(Facts(x).divergence), 0.55 * f + 0.45 * g)
  {
    var members, sector := ValidSector(x), RobustReturn(rates).value;
    var values := Map(m => ReturnOf(Return5m, m), members);
    forall i | 0 <= i < |members| ensures values[i] == Some(rates[i]) {
      assert Moved(Return5m, members[i], rates[i]);
      MovedExactly(Return5m, members[i], rates[i]);
    }
    SectorMoves(x, Return5m, rates);
    assert Facts(x).sector5m == RobustReturn(rates);
    FactDivergence(x);
    hide ValidSector, Divergence, Moved, ReturnOf, RobustReturn, Median, Map, ShareAgainst, Along, Facts, Distances, Near;
    DivergenceOf(values, rates, sector, distances, share, f, g);
  }

  lemma FactDivergence(x: MetricInput)
    ensures Facts(x).divergence == Divergence(Map(m => ReturnOf(Return5m, m), ValidSector(x)), Facts(x).sector5m)
  {
    hide ValidSector, ReturnAndBreadth, HistoricalBaselines, CoreStatsOf, Divergence, ShareOfHead, InactiveRatio,
         AmountTotal, Ratio, OrderedObservations, Map;
  }

  /** Nothing diverges without a known move of the sector. */
  lemma DivergenceUnknown(x: MetricInput)
    requires Facts(x).sector5m.None?
    ensures Facts(x).divergence == None
  {
    FactDivergence(x);
    hide Facts, Map, ValidSector, ReturnOf;
  }

  /** What is reported as internal divergence. */
  lemma DivergenceReported(current: bool, x: MetricInput)
    requires Shows(current, x, InternalDivergence)
    ensures MetricMeaning.Reported(current, x, InternalDivergence) == OrMissing(Facts(x).divergence)
  {
    ReportedIs(current, x, InternalDivergence);
    GuardianFormulas(ContextsOf(x), Facts(x), Scored(current, x));
    hide *;
  }

  // ---- the quality and the evidence of an evaluation

  /** The nearest whole PPM of a share, cut off at none and all. */
  ghost predicate NearestPpm(ppm: int, share: real) {
    if share <= 0.0 then ppm == 0
    else if share >= 1.0 then ppm == 1_000_000
    else -0.5 <= ppm as real - share * 1_000_000.0 <= 0.5
  }

  lemma PpmNearest(share: real)
    ensures NearestPpm(Ppm(share), share)
  {
  }

  ghost predicate PartOf(share: real, part: nat, whole: nat) {
    if whole == 0 then share == 0.0 else share * whole as real == part as real
  }

  /** How many members are quoted out of those that could be. */
  ghost predicate Covered(q: Quality, members: nat, quoted: nat) {
    && q.expectedCount == members && q.validCount == quoted
    && exists share: real :: PartOf(share, quoted, members) && NearestPpm(q.quotePpm, share)
  }

  lemma CoverageIs(members: nat, quoted: nat)
    ensures PartOf(MetricProducer.Coverage(members, quoted), quoted, members)
  {
    if members > 0 { QuotientTimes(quoted as real, members as real); }
  }

  lemma QualityCounts(x: QualityInputs, members: nat, quoted: nat)
    ensures var q := QualityOf(x, members, quoted);
            && q.quotePpm == Ppm(MetricProducer.Coverage(members, quoted)) && q.historicalPpm == Ppm(x.history)
            && q.expectedCount == members && q.validCount == quoted
  {
    hide Ppm, UnfitReasons, LimitedReasons, SortBy, MetricProducer.Coverage;
  }

  lemma CoveredExactly(x: QualityInputs, members: nat, quoted: nat)
    ensures Covered(QualityOf(x, members, quoted), members, quoted)
    ensures NearestPpm(QualityOf(x, members, quoted).historicalPpm, x.history)
  {
    hide NearestPpm, Ppm, QualityOf, PartOf, MetricProducer.Coverage;
    var share := MetricProducer.Coverage(members, quoted);
    CoverageIs(members, quoted);
    QualityCounts(x, members, quoted);
    PpmNearest(share);
    PpmNearest(x.history);
  }

  /** The members of the sector that could be quoted, and those that were, each once. */
  ghost predicate Rolls(x: MetricInput, members: seq<Member>, quoted: seq<Member>) {
    && DistinctBy(MemberUid, members) && DistinctBy(MemberUid, quoted)
    && (forall m :: m in members <==> InSector(x, m))
    && (forall m :: m in quoted <==> InSector(x, m) && Quoted(m))
  }

  /** The quality is graded from who is in the sector and who was quoted. */
  lemma SectorGraded(current: bool, x: MetricInput) returns (members: seq<Member>, quoted: seq<Member>)
    requires ValidInput(x)
    ensures Rolls(x, members, quoted)
    ensures var q := Evaluation(current, x).quality;
            && MarketMetrics.Graded(q, QualityInputsOf(x), |members|, |quoted|)
            && Covered(q, |members|, |quoted|) && NearestPpm(q.historicalPpm, x.historicalCoverage)
  {
    members, quoted := Filter(Active, SectorMembers(x)), ValidSector(x);
    CountedDistinct(x);
    forall m { CountedExactly(x, m); }
    MarketMetrics.QualityExactly(QualityInputsOf(x), |members|, |quoted|);
    CoveredExactly(QualityInputsOf(x), |members|, |quoted|);
    hide QualityOf, SectorMembers, ValidSector, Filter, InSector, Quoted, MarketMetrics.Graded, Covered, NearestPpm,
         GatedValues, CalculatedScores, EvidenceOf, ContextsOf;
  }

  /** The evidence holds what was evaluated and what came of it. */
  lemma EvidenceExactly(current: bool, x: MetricInput)
    ensures var out := Evaluation(current, x); var e := out.evidence;
            && out.sectorUid == e.sectorUid == x.sectorUid && e.current == current
            && e.quality == out.quality && e.metrics == out.values
            && e.primaryCount == |x.primary| && e.finalSnapshot == x.finalSnapshot
            && e.base == (if out.quality.fitness == Unfit then None else Some(Facts(x)))
            && multiset(e.sectorMembers) == multiset(x.sectorMembers) && SortedBy(StringLeq, e.sectorMembers)
            && |e.windowDates| == |x.windows| && SortedBy(StringLeq, e.windowDates)
            && forall w <- x.windows :: w.date in e.windowDates
  {
    StringOrder();
    var dates := Map(WindowDate, x.windows);
    SortBySorted(StringLeq, x.sectorMembers);
    SortBySorted(StringLeq, dates);
    PermutationMembers(SortBy(StringLeq, dates), dates);
    hide StringLeq, SortBy, SectorQuality, BaseOf, ValidSector, GatedValues, CalculatedScores, ContextsOf;
    forall w | w in x.windows ensures w.date in dates { MappedMember(WindowDate, x.windows, w); }
  }
}
