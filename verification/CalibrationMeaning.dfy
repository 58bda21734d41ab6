/** The calibration report field by field, in terms of the runs alone. */
module CalibrationMeaning {
  import opened Wrappers
  import opened Sequences
  import opened Counters
  import opened Domain
  import G = Guardian
  import S = Scout
  import opened Calibration

  // ---- what the thresholds make of a run

  predicate Reaches(values: map<MetricCode, int>, t: G.Thresholds, code: MetricCode) {
    code in values && code in t && values[code] >= t[code]
  }

  /** The run is fit for use and has every Guardian value. */
  predicate Whole(r: MetricRun) { r.fitness != Unfit && forall code <- GUARDIAN_CODES :: code in r.guardianValues }

  /** The Guardian rule of the code counts on the run. */
  predicate GuardianOn(r: MetricRun, t: G.Thresholds, code: MetricCode) {
    Whole(r) && code in GUARDIAN_CODES && Reaches(r.guardianValues, t, code)
  }

  predicate ScoutOn(r: MetricRun, t: G.Thresholds, code: MetricCode) {
    code in SCOUT_CODES && Reaches(r.scoutValues, t, code)
  }

  predicate AnyGuardian(r: MetricRun, t: G.Thresholds) { exists code <- GUARDIAN_CODES :: GuardianOn(r, t, code) }

  predicate AnyScout(r: MetricRun, t: G.Thresholds) { exists code <- SCOUT_CODES :: ScoutOn(r, t, code) }

  /** A value reaches its threshold, whether or not the run is whole. */
  predicate AnyRaw(r: MetricRun, t: G.Thresholds) { exists code <- GUARDIAN_CODES :: Reaches(r.guardianValues, t, code) }

  predicate OneOf(r: MetricRun, t: G.Thresholds, codes: set<MetricCode>) {
    exists code <- codes :: Reaches(r.guardianValues, t, code)
  }

  /** The effect on a run: it pauses unless whole, and then follows the worst value that reaches its threshold. */
  function EffectOn(r: MetricRun, t: G.Thresholds): G.Effect {
    if !Whole(r) then G.Pause
    else if OneOf(r, t, {BreadthCollapse, StampedeRisk, T1Chasing}) then G.Suppress
    else if OneOf(r, t, {RiseRate, HeadConcentration, InternalDivergence, Crowding, CoreWeakening, EarlySignalFailure})
      then G.Downgrade
    else if r.fitness == FitWithLimitations || OneOf(r, t, {LiquidityWeakening}) then G.AllowWithWarning
    else G.Allow
  }

  predicate Once(codes: seq<MetricCode>) { forall code <- codes :: multiset(codes)[code] == 1 }

  /** What is seen of a run, in plain terms. */
  ghost predicate SeenAs(s: Sighting, r: MetricRun, t: G.Thresholds) {
    && s.snapshotUid == r.snapshotUid && s.fitness == r.fitness && s.phase == r.phase
    && s.stressed == r.stressed && s.strongBroad == r.strongBroad
    && (forall code :: code in s.guardian <==> GuardianOn(r, t, code))
    && (forall code :: code in s.scout <==> ScoutOn(r, t, code))
    && (forall code :: code in s.raw <==> code in GUARDIAN_CODES && Reaches(r.guardianValues, t, code))
    && Once(s.guardian) && Once(s.scout)
    && s.effect == EffectOn(r, t)
    && (s.limited <==> !Whole(r) || r.fitness == FitWithLimitations)
  }

  lemma NoRepeatsOnce(codes: seq<MetricCode>)
    requires forall i, j :: 0 <= i < j < |codes| ==> codes[i] != codes[j]
    ensures Once(codes)
  {
    forall code | code in codes ensures multiset(codes)[code] == 1 { DistinctCodes(codes, code); }
  }

  lemma {:induction false} DistinctCodes(codes: seq<MetricCode>, code: MetricCode)
    requires forall i, j :: 0 <= i < j < |codes| ==> codes[i] != codes[j]
    ensures multiset(codes)[code] == if code in codes then 1 else 0
  {
    if codes != [] {
      DistinctCodes(codes[1..], code);
      assert codes == [codes[0]] + codes[1..];
    }
  }

  function SituationOf(r: MetricRun): G.Situation { G.Situation(r.guardianValues, Available, Healthy, r.fitness) }

  lemma WholeExactly(r: MetricRun)
    ensures G.IsUnavailable(SituationOf(r)) <==> !Whole(r)
    ensures G.IsLimited(SituationOf(r)) <==> r.fitness == FitWithLimitations
  {
  }

  lemma ReachesExactly(r: MetricRun, t: G.Thresholds, codes: set<MetricCode>)
    ensures forall code :: G.MetricMet(SituationOf(r), t, code) <==> Reaches(r.guardianValues, t, code)
    ensures G.AnyMet(SituationOf(r), t, codes) <==> OneOf(r, t, codes)
  {
  }

  lemma EffectSeen(r: MetricRun, t: G.Thresholds)
    ensures DecisionOn(r, t).effect == EffectOn(r, t)
  {
    G.EffectExactly(SituationOf(r), t, map[]);
    WholeExactly(r);
    ReachesExactly(r, t, G.SUPPRESSING);
    ReachesExactly(r, t, G.DOWNGRADING);
    assert G.DOWNGRADING == {RiseRate, HeadConcentration, InternalDivergence, Crowding, CoreWeakening, EarlySignalFailure};
    ReachesExactly(r, t, {LiquidityWeakening});
    hide G.Decide, G.IsUnavailable, G.AnyMet, OneOf, Whole;
    assert OneOf(r, t, {LiquidityWeakening}) <==> G.MetricMet(SituationOf(r), t, LiquidityWeakening) by {
      assert OneOf(r, t, {LiquidityWeakening}) <==> Reaches(r.guardianValues, t, LiquidityWeakening);
    }
  }

  lemma GuardianRules(r: MetricRun, t: G.Thresholds)
    ensures See(r, t).guardian == Map(G.CodeOf, G.CountingRules(SituationOf(r), Some(t)))
  {
    hide S.ScoutMatches, G.IsUnavailable, G.FindingsOf, G.EffectsOf, G.MatchingRules, G.CountingRules, G.MaxEffect,
         G.MaxSeverity, Map;
  }

  lemma CountsOnce(r: MetricRun, t: G.Thresholds)
    ensures Once(See(r, t).guardian)
  {
    hide See;
    forall code | code in See(r, t).guardian ensures multiset(See(r, t).guardian)[code] == 1 {
      GuardianOnce(r, t, code);
      assert code in multiset(See(r, t).guardian);
    }
  }

  lemma GuardianSeen(r: MetricRun, t: G.Thresholds)
    ensures forall code :: code in See(r, t).guardian <==> GuardianOn(r, t, code)
  {
    WholeExactly(r);
    ReachesExactly(r, t, {});
    GuardianRules(r, t);
    var s := SituationOf(r);
    var rules := G.CountingRules(s, Some(t));
    hide G.CountingRules, G.IsUnavailable, G.MetricMet, Reaches, Whole, See, OneOf, G.EffectFor, G.SeverityFor, G.TagFor;
    if Whole(r) {
      G.CountingCodes(s, t);
      forall code | GuardianOn(r, t, code) ensures code in See(r, t).guardian {
        var rule :| rule in rules && rule.code == code;
        MappedMember(G.CodeOf, rules, rule);
      }
      forall code | code in See(r, t).guardian ensures GuardianOn(r, t, code) {
        var rule := MappedFrom(G.CodeOf, rules, code);
      }
    } else {
      NoRules(s, t);
    }
  }

  lemma NoRules(s: G.Situation, t: G.Thresholds)
    requires G.IsUnavailable(s)
    ensures G.CountingRules(s, Some(t)) == []
  {
    hide G.IsUnavailable;
  }

  lemma ScoutSeen(r: MetricRun, t: G.Thresholds)
    ensures forall code :: code in S.ScoutMatches(r.scoutValues, t) <==> ScoutOn(r, t, code)
    ensures Once(S.ScoutMatches(r.scoutValues, t))
  {
    S.RulesAreTheScoutCodes();
    hide S.ScoutRules;
    var met := code => S.OpportunityMet(r.scoutValues, t, code);
    assert S.ScoutRules()[..|S.ScoutRules()|] == S.ScoutRules();
    FilterMembers(met, S.ScoutRules());
    assert DistinctBy(SameCode, S.ScoutRules());
    FilterDistinct(SameCode, met, S.ScoutRules());
    var matches := Filter(met, S.ScoutRules());
    forall i, j | 0 <= i < j < |matches| ensures matches[i] != matches[j] {
      assert SameCode(matches[i]) != SameCode(matches[j]);
    }
    NoRepeatsOnce(matches);
    hide Filter, Once;
  }

  function SameCode(code: MetricCode): MetricCode { code }

  lemma RawSeen(r: MetricRun, t: G.Thresholds)
    ensures forall code ::
              code in Map(G.CodeOf, G.MatchingRules(r.guardianValues, t))
              <==> code in GUARDIAN_CODES && Reaches(r.guardianValues, t, code)
  {
    G.RulesExactly();
    hide G.Rules;
    var met := rule => G.Met(r.guardianValues, t, rule);
    FilterMembers(met, G.Rules());
    var rules := G.MatchingRules(r.guardianValues, t);
    hide Filter;
    forall code | code in GUARDIAN_CODES && Reaches(r.guardianValues, t, code) ensures code in Map(G.CodeOf, rules) {
      var rule := G.RuleOf(code);
      MappedMember(G.CodeOf, rules, rule);
    }
    forall code | code in Map(G.CodeOf, rules) ensures code in GUARDIAN_CODES && Reaches(r.guardianValues, t, code) {
      var rule := MappedFrom(G.CodeOf, rules, code);
    }
  }

  lemma LimitedSeen(r: MetricRun, t: G.Thresholds)
    ensures (exists f <- DecisionOn(r, t).findings :: IsLimitation(f)) <==> !Whole(r) || r.fitness == FitWithLimitations
  {
    WholeExactly(r);
    var s, findings := SituationOf(r), DecisionOn(r, t).findings;
    hide Whole, G.Decide, G.IsUnavailable, G.MetricMet, G.MissingFacts;
    forall f ensures f in findings <==>
        if G.IsUnavailable(s) then
          f == G.Finding(G.DataLimitation, G.Critical,
                         if G.MissingFacts(s.metrics) then G.FactsMissing else G.QualityRequiresPause, None)
        else
          || (G.IsLimited(s) && f == G.Finding(G.DataLimitation, G.Warning, G.QualityLimited, None))
          || exists code <- GUARDIAN_CODES :: G.MetricMet(s, t, code) && f == G.MetFinding(code, map[])
    {
      G.FindingsExactly(s, t, map[], f);
    }
    if !Whole(r) {
      assert G.Finding(G.DataLimitation, G.Critical,
                       if G.MissingFacts(s.metrics) then G.FactsMissing else G.QualityRequiresPause, None) in findings;
    } else if r.fitness == FitWithLimitations {
      assert G.Finding(G.DataLimitation, G.Warning, G.QualityLimited, None) in findings;
    } else {
      forall f | f in findings ensures !IsLimitation(f) {
        var code :| code in GUARDIAN_CODES && f == G.MetFinding(code, map[]);
      }
    }
  }

  lemma SeenExactly(r: MetricRun, t: G.Thresholds)
    ensures SeenAs(See(r, t), r, t)
  {
    GuardianSeen(r, t);
    CountsOnce(r, t);
    ScoutSeen(r, t);
    RawSeen(r, t);
    LimitedSeen(r, t);
    EffectSeen(r, t);
    hide DecisionOn, GuardianOn, ScoutOn, Reaches, Whole, EffectOn, Once, S.ScoutMatches, G.MatchingRules, Map, IsLimitation;
  }

  // ---- what is counted

  /** How many runs have a property. */
  function Number(has: MetricRun -> bool, runs: seq<MetricRun>): nat {
    if runs == [] then 0
    else Number(has, runs[..|runs| - 1]) + if has(runs[|runs| - 1]) then 1 else 0
  }

  /** A counter to which each run adds one or nothing counts runs. */
  lemma {:induction false} CountedRuns<T(!new)>(
      f: Sighting -> multiset<T>, has: MetricRun -> bool, runs: seq<MetricRun>, t: G.Thresholds, x: T)
    requires forall r <- runs :: f(See(r, t))[x] == if has(r) then 1 else 0
    ensures Sum(f, SeeAll(runs, t))[x] == Number(has, runs)
  {
    hide See;
    if runs == [] {
      NothingSeen(t);
    } else {
      var front, last := runs[..|runs| - 1], runs[|runs| - 1];
      assert runs == front + [last];
      CountedRuns(f, has, front, t, x);
      SumOneMore(f, runs, t);
    }
  }

  lemma SumOneMore<T(!new)>(f: Sighting -> multiset<T>, runs: seq<MetricRun>, t: G.Thresholds)
    requires runs != []
    ensures Sum(f, SeeAll(runs, t)) == Sum(f, SeeAll(runs[..|runs| - 1], t)) + f(See(runs[|runs| - 1], t))
  {
    hide *;
    SeeOneMore(runs, |runs| - 1, t);
    assert runs[..|runs| - 1 + 1] == runs;
    SumSnoc(f, SeeAll(runs[..|runs| - 1], t), See(runs[|runs| - 1], t));
  }

  /** Something is counted exactly if it was counted for some run. */
  lemma CountedSome<T(!new)>(f: Sighting -> multiset<T>, runs: seq<MetricRun>, t: G.Thresholds, x: T)
    ensures x in Sum(f, SeeAll(runs, t)) <==> exists r <- runs :: x in f(See(r, t))
  {
    hide See, Sum;
    var s := SeeAll(runs, t);
    SumHas(f, s, x);
    if y :| y in s && x in f(y) {
      var r := MappedFrom(r => See(r, t), runs, y);
    }
    forall r | r in runs && x in f(See(r, t)) ensures exists y <- s :: x in f(y) {
      MappedMember(r => See(r, t), runs, r);
    }
  }

  lemma {:induction false} NumberPositive(has: MetricRun -> bool, runs: seq<MetricRun>)
    ensures Number(has, runs) > 0 <==> exists r <- runs :: has(r)
  {
    if runs != [] {
      NumberPositive(has, runs[..|runs| - 1]);
      assert runs == runs[..|runs| - 1] + [runs[|runs| - 1]];
    }
  }

  /** A Scout metric speaks for the run while the Guardian speaks against it. */
  predicate Contradicts(r: MetricRun, t: G.Thresholds) { AnyScout(r, t) && (AnyGuardian(r, t) || !Whole(r)) }

  /** How many runs there are of each kind that the report counts. */
  ghost predicate CountsAre(c: Counts, runs: seq<MetricRun>, t: G.Thresholds) {
    && (forall code :: c.guardian[code] == Number(r => GuardianOn(r, t, code), runs))
    && (forall code :: c.scout[code] == Number(r => ScoutOn(r, t, code), runs))
    && (forall f :: c.quality[f] == Number((r: MetricRun) => r.fitness == f, runs))
    && (forall p :: c.phases[p] == Number((r: MetricRun) => r.phase == p, runs))
    && (forall e :: c.effects[e] == Number(r => EffectOn(r, t) == e, runs))
    && c.limited[true] == Number((r: MetricRun) => !Whole(r) || r.fitness == FitWithLimitations, runs)
    && (forall uid :: c.conflicts[uid] == Number((r: MetricRun) => r.snapshotUid == uid && Contradicts(r, t), runs))
    && (forall code :: code in c.stressed <==> exists r <- runs :: code in r.stressed)
    && (forall code :: code in c.strong <==> exists r <- runs :: code in r.strongBroad)
    && (forall code ::
          c.stressedMatches[code] == Number((r: MetricRun) => code in r.stressed && GuardianOn(r, t, code), runs))
    && (forall code ::
          c.strongMatches[code] == Number((r: MetricRun) => code in r.strongBroad && ScoutOn(r, t, code), runs))
  }

  lemma OnceCounts(codes: seq<MetricCode>, code: MetricCode)
    requires Once(codes)
    ensures multiset(codes)[code] == if code in codes then 1 else 0
  {
    if code !in codes { assert code !in multiset(codes); }
  }

  lemma {:induction false} CommonCounts(codes: seq<MetricCode>, among: seq<MetricCode>, code: MetricCode)
    ensures Common(codes, among)[code] == if code in among then multiset(codes)[code] else 0
  {
    if codes != [] {
      CommonCounts(codes[1..], among, code);
      assert codes == [codes[0]] + codes[1..];
      assert multiset(codes) == multiset{codes[0]} + multiset(codes[1..]);
    }
  }

  /** What one run adds to the counters. */
  lemma AddsRules(r: MetricRun, t: G.Thresholds, code: MetricCode)
    ensures var s := See(r, t);
            && GuardianCount(s)[code] == (if GuardianOn(r, t, code) then 1 else 0)
            && ScoutCount(s)[code] == (if ScoutOn(r, t, code) then 1 else 0)
            && StressedMatches(s)[code] == (if code in r.stressed && GuardianOn(r, t, code) then 1 else 0)
            && StrongMatches(s)[code] == (if code in r.strongBroad && ScoutOn(r, t, code) then 1 else 0)
            && (code in StressedCount(s) <==> code in r.stressed)
            && (code in StrongCount(s) <==> code in r.strongBroad)
  {
    SeenExactly(r, t);
    hide See, GuardianOn, ScoutOn, Once, EffectOn, Whole, Common;
    var s := See(r, t);
    OnceCounts(s.guardian, code);
    OnceCounts(s.scout, code);
    CommonCounts(s.guardian, s.stressed, code);
    CommonCounts(s.scout, s.strongBroad, code);
  }

  lemma AddsKinds(r: MetricRun, t: G.Thresholds)
    ensures var s := See(r, t);
            && (forall f :: QualityCount(s)[f] == if r.fitness == f then 1 else 0)
            && (forall p :: PhaseCount(s)[p] == if r.phase == p then 1 else 0)
            && (forall e :: EffectCount(s)[e] == if EffectOn(r, t) == e then 1 else 0)
            && LimitationCount(s)[true] == (if !Whole(r) || r.fitness == FitWithLimitations then 1 else 0)
  {
    SeenExactly(r, t);
    hide See, GuardianOn, ScoutOn, Once, EffectOn, Whole;
  }

  lemma Speaking(r: MetricRun, t: G.Thresholds)
    ensures See(r, t).guardian != [] <==> AnyGuardian(r, t)
    ensures See(r, t).scout != [] <==> AnyScout(r, t)
    ensures See(r, t).raw != [] <==> AnyRaw(r, t)
  {
    SeenExactly(r, t);
    hide See, Once, EffectOn, Whole, Reaches;
    var s := See(r, t);
    if s.guardian != [] { assert s.guardian[0] in s.guardian; }
    if s.scout != [] { assert s.scout[0] in s.scout; }
    if s.raw != [] { assert s.raw[0] in s.raw; }
  }

  lemma SuppressedOn(r: MetricRun, t: G.Thresholds)
    ensures G.Blocks(See(r, t).effect) <==> !Whole(r) || OneOf(r, t, {BreadthCollapse, StampedeRisk, T1Chasing})
    ensures G.Blocks(See(r, t).effect) && Whole(r) ==> AnyGuardian(r, t)
  {
    SeenExactly(r, t);
    hide See, Once, Whole, Reaches;
  }

  lemma AddsConflict(r: MetricRun, t: G.Thresholds, uid: string)
    ensures ConflictCount(See(r, t))[uid] == if r.snapshotUid == uid && Contradicts(r, t) then 1 else 0
  {
    Speaking(r, t);
    SuppressedOn(r, t);
    assert See(r, t).snapshotUid == r.snapshotUid;
    hide See, G.Blocks, AnyGuardian, AnyScout, AnyRaw, Whole, OneOf;
  }

  lemma GuardianCounts(runs: seq<MetricRun>, t: G.Thresholds, code: MetricCode)
    ensures Sum(GuardianCount, SeeAll(runs, t))[code] == Number(r => GuardianOn(r, t, code), runs)
  {
    forall r | r in runs ensures GuardianCount(See(r, t))[code] == if GuardianOn(r, t, code) then 1 else 0 { AddsRules(r, t, code); }
    hide See, SeeAll, GuardianOn, ScoutOn, Number, Sum, GuardianCount;
    CountedRuns(GuardianCount, r => GuardianOn(r, t, code), runs, t, code);
  }

  lemma StressCounts(runs: seq<MetricRun>, t: G.Thresholds, code: MetricCode)
    ensures Sum(StressedMatches, SeeAll(runs, t))[code] == Number((r: MetricRun) => code in r.stressed && GuardianOn(r, t, code), runs)
  {
    forall r | r in runs ensures StressedMatches(See(r, t))[code] == if code in r.stressed && GuardianOn(r, t, code) then 1 else 0 { AddsRules(r, t, code); }
    hide See, SeeAll, GuardianOn, ScoutOn, Number, Sum, StressedMatches;
    CountedRuns(StressedMatches, (r: MetricRun) => code in r.stressed && GuardianOn(r, t, code), runs, t, code);
  }

  lemma ScoutCounts(runs: seq<MetricRun>, t: G.Thresholds, code: MetricCode)
    ensures Sum(ScoutCount, SeeAll(runs, t))[code] == Number(r => ScoutOn(r, t, code), runs)
  {
    forall r | r in runs ensures ScoutCount(See(r, t))[code] == if ScoutOn(r, t, code) then 1 else 0 { AddsRules(r, t, code); }
    hide See, SeeAll, GuardianOn, ScoutOn, Number, Sum, ScoutCount;
    CountedRuns(ScoutCount, r => ScoutOn(r, t, code), runs, t, code);
  }

  lemma StrengthCounts(runs: seq<MetricRun>, t: G.Thresholds, code: MetricCode)
    ensures Sum(StrongMatches, SeeAll(runs, t))[code] == Number((r: MetricRun) => code in r.strongBroad && ScoutOn(r, t, code), runs)
  {
    forall r | r in runs ensures StrongMatches(See(r, t))[code] == if code in r.strongBroad && ScoutOn(r, t, code) then 1 else 0 { AddsRules(r, t, code); }
    hide See, SeeAll, GuardianOn, ScoutOn, Number, Sum, StrongMatches;
    CountedRuns(StrongMatches, (r: MetricRun) => code in r.strongBroad && ScoutOn(r, t, code), runs, t, code);
  }

  lemma SampleCounts(runs: seq<MetricRun>, t: G.Thresholds, code: MetricCode)
    ensures var c := CountsOf(SeeAll(runs, t));
            && (code in c.stressed <==> exists r <- runs :: code in r.stressed)
            && (code in c.strong <==> exists r <- runs :: code in r.strongBroad)
  {
    forall r | r in runs
      ensures code in StressedCount(See(r, t)) <==> code in r.stressed
      ensures code in StrongCount(See(r, t)) <==> code in r.strongBroad
    {
      AddsRules(r, t, code);
    }
    hide See, SeeAll, Sum, StressedCount, StrongCount;
    CountedSome(StressedCount, runs, t, code);
    CountedSome(StrongCount, runs, t, code);
  }

  lemma RuleCounts(runs: seq<MetricRun>, t: G.Thresholds, code: MetricCode)
    ensures var c := CountsOf(SeeAll(runs, t));
            && c.guardian[code] == Number(r => GuardianOn(r, t, code), runs)
            && c.scout[code] == Number(r => ScoutOn(r, t, code), runs)
            && c.stressedMatches[code] == Number((r: MetricRun) => code in r.stressed && GuardianOn(r, t, code), runs)
            && c.strongMatches[code] == Number((r: MetricRun) => code in r.strongBroad && ScoutOn(r, t, code), runs)
            && (code in c.stressed <==> exists r <- runs :: code in r.stressed)
            && (code in c.strong <==> exists r <- runs :: code in r.strongBroad)
  {
    GuardianCounts(runs, t, code);
    StressCounts(runs, t, code);
    ScoutCounts(runs, t, code);
    StrengthCounts(runs, t, code);
    SampleCounts(runs, t, code);
    hide Sum, SeeAll, Number, GuardianOn, ScoutOn;
  }

  lemma QualityCounts(runs: seq<MetricRun>, t: G.Thresholds, f: Fitness)
    ensures CountsOf(SeeAll(runs, t)).quality[f] == Number((r: MetricRun) => r.fitness == f, runs)
  {
    forall r | r in runs ensures QualityCount(See(r, t))[f] == if r.fitness == f then 1 else 0 { AddsKinds(r, t); }
    hide See, SeeAll, Number, Sum, QualityCount;
    CountedRuns(QualityCount, (r: MetricRun) => r.fitness == f, runs, t, f);
  }

  lemma PhaseCounts(runs: seq<MetricRun>, t: G.Thresholds, p: SessionPhase)
    ensures CountsOf(SeeAll(runs, t)).phases[p] == Number((r: MetricRun) => r.phase == p, runs)
  {
    forall r | r in runs ensures PhaseCount(See(r, t))[p] == if r.phase == p then 1 else 0 { AddsKinds(r, t); }
    hide See, SeeAll, Number, Sum, PhaseCount;
    CountedRuns(PhaseCount, (r: MetricRun) => r.phase == p, runs, t, p);
  }

  lemma EffectCounts(runs: seq<MetricRun>, t: G.Thresholds, e: G.Effect)
    ensures CountsOf(SeeAll(runs, t)).effects[e] == Number(r => EffectOn(r, t) == e, runs)
  {
    forall r | r in runs ensures EffectCount(See(r, t))[e] == if EffectOn(r, t) == e then 1 else 0 { AddsKinds(r, t); }
    hide See, SeeAll, Number, Sum, EffectCount, EffectOn;
    CountedRuns(EffectCount, r => EffectOn(r, t) == e, runs, t, e);
  }

  lemma LimitationCounts(runs: seq<MetricRun>, t: G.Thresholds)
    ensures CountsOf(SeeAll(runs, t)).limited[true]
            == Number((r: MetricRun) => !Whole(r) || r.fitness == FitWithLimitations, runs)
  {
    forall r | r in runs
      ensures LimitationCount(See(r, t))[true] == if !Whole(r) || r.fitness == FitWithLimitations then 1 else 0
    {
      AddsKinds(r, t);
    }
    hide See, SeeAll, Number, Sum, LimitationCount, Whole;
    CountedRuns(LimitationCount, (r: MetricRun) => !Whole(r) || r.fitness == FitWithLimitations, runs, t, true);
  }

  lemma ConflictCounts(runs: seq<MetricRun>, t: G.Thresholds, uid: string)
    ensures CountsOf(SeeAll(runs, t)).conflicts[uid]
            == Number((r: MetricRun) => r.snapshotUid == uid && Contradicts(r, t), runs)
  {
    forall r | r in runs
      ensures ConflictCount(See(r, t))[uid] == if r.snapshotUid == uid && Contradicts(r, t) then 1 else 0
    {
      AddsConflict(r, t, uid);
    }
    hide See, SeeAll, Number, Sum, ConflictCount, Contradicts;
    CountedRuns(ConflictCount, (r: MetricRun) => r.snapshotUid == uid && Contradicts(r, t), runs, t, uid);
  }

  /** Every counter of the report, in terms of the runs. */
  lemma CountsExactly(runs: seq<MetricRun>, t: G.Thresholds)
    ensures CountsAre(CountsOf(SeeAll(runs, t)), runs, t)
  {
    hide See, SeeAll, Number, Sum, CountsOf, Contradicts, Whole, EffectOn, GuardianOn, ScoutOn;
    var c := CountsOf(SeeAll(runs, t));
    LimitationCounts(runs, t);
    forall code
      ensures c.guardian[code] == Number(r => GuardianOn(r, t, code), runs)
      ensures c.scout[code] == Number(r => ScoutOn(r, t, code), runs)
      ensures c.stressedMatches[code] == Number((r: MetricRun) => code in r.stressed && GuardianOn(r, t, code), runs)
      ensures c.strongMatches[code] == Number((r: MetricRun) => code in r.strongBroad && ScoutOn(r, t, code), runs)
      ensures code in c.stressed <==> exists r <- runs :: code in r.stressed
      ensures code in c.strong <==> exists r <- runs :: code in r.strongBroad
    {
      RuleCounts(runs, t, code);
    }
    forall f ensures c.quality[f] == Number((r: MetricRun) => r.fitness == f, runs) { QualityCounts(runs, t, f); }
    forall p ensures c.phases[p] == Number((r: MetricRun) => r.phase == p, runs) { PhaseCounts(runs, t, p); }
    forall e ensures c.effects[e] == Number(r => EffectOn(r, t) == e, runs) { EffectCounts(runs, t, e); }
    forall uid ensures c.conflicts[uid] == Number((r: MetricRun) => r.snapshotUid == uid && Contradicts(r, t), runs) {
      ConflictCounts(runs, t, uid);
    }
  }

  // ---- what is concluded

  /** The failures that single runs cause. */
  predicate RunFails(f: Failure, r: MetricRun, t: G.Thresholds) {
    match f
    case ScoutOnUnfit => r.fitness == Unfit && AnyScout(r, t)
    case ScoutOnLimited => r.fitness == FitWithLimitations && AnyScout(r, t)
    case GuardianOnUnfit => r.fitness == Unfit && AnyRaw(r, t)
    case ScoutWhileSuppressed => AnyScout(r, t) && (!Whole(r) || OneOf(r, t, {BreadthCollapse, StampedeRisk, T1Chasing}))
    case OutsideSession => r.phase != ContinuousAm && r.phase != ContinuousPm && (AnyGuardian(r, t) || AnyScout(r, t))
    case _ => false
  }

  function FitRuns(runs: seq<MetricRun>): nat { Number((r: MetricRun) => r.fitness == Fit, runs) }

  /** A Guardian rule counted on more than four fifths as many runs as are fit. */
  ghost predicate GuardianAlways(runs: seq<MetricRun>, t: G.Thresholds) {
    exists code <- GUARDIAN_CODES :: Number(r => GuardianOn(r, t, code), runs) * 100 > FitRuns(runs) * 80
  }

  ghost predicate ScoutAlways(runs: seq<MetricRun>, t: G.Thresholds) {
    exists code <- SCOUT_CODES :: Number(r => ScoutOn(r, t, code), runs) * 100 > FitRuns(runs) * 60
  }

  /** When a failure is reported. */
  ghost predicate FailsBy(f: Failure, runs: seq<MetricRun>, t: G.Thresholds) {
    match f
    case NoFitEvaluations => FitRuns(runs) == 0
    case GuardianAlwaysOn => FitRuns(runs) > 0 && GuardianAlways(runs, t)
    case ScoutAlwaysOn => FitRuns(runs) > 0 && ScoutAlways(runs, t)
    case GuardianNeverOnStressed => exists code :: MissedStress(runs, t, code)
    case ScoutNeverOnStrongBroad => exists code :: MissedStrength(runs, t, code)
    case _ => exists r <- runs :: RunFails(f, r, t)
  }

  /** The code was sampled under stress, and its rule counted on none of those samples. */
  ghost predicate MissedStress(runs: seq<MetricRun>, t: G.Thresholds, code: MetricCode) {
    && (exists r <- runs :: code in r.stressed)
    && forall r <- runs :: code in r.stressed ==> !GuardianOn(r, t, code)
  }

  ghost predicate MissedStrength(runs: seq<MetricRun>, t: G.Thresholds, code: MetricCode) {
    && (exists r <- runs :: code in r.strongBroad)
    && forall r <- runs :: code in r.strongBroad ==> !ScoutOn(r, t, code)
  }

  /** The failures that a sighting raises. */
  predicate Raises(f: Failure, s: Sighting) {
    match f
    case ScoutOnUnfit => s.scout != [] && s.fitness == Unfit
    case ScoutOnLimited => s.scout != [] && s.fitness == FitWithLimitations
    case GuardianOnUnfit => s.raw != [] && s.fitness == Unfit
    case ScoutWhileSuppressed => s.scout != [] && G.Blocks(s.effect)
    case OutsideSession => (s.guardian != [] || s.scout != []) && !InContinuousSession(s.phase)
    case _ => false
  }

  lemma JoinedHas(
    a: multiset<Failure>, b: multiset<Failure>, c: multiset<Failure>, d: multiset<Failure>, e: multiset<Failure>,
    f: Failure)
    ensures f in a + b + c + d + e <==> f in a || f in b || f in c || f in d || f in e
  {
  }

  lemma WhenHas(condition: bool, x: Failure, f: Failure)
    ensures f in When(condition, x) <==> condition && f == x
  {
  }

  lemma Joined(
    a: multiset<Failure>, b: multiset<Failure>, c: multiset<Failure>, d: multiset<Failure>, e: multiset<Failure>,
    s: Sighting)
    requires a == When(s.scout != [] && s.fitness == Unfit, ScoutOnUnfit)
    requires b == When(s.scout != [] && s.fitness == FitWithLimitations, ScoutOnLimited)
    requires c == When(s.raw != [] && s.fitness == Unfit, GuardianOnUnfit)
    requires d == When(s.scout != [] && G.Blocks(s.effect), ScoutWhileSuppressed)
    requires e == When((s.guardian != [] || s.scout != []) && !InContinuousSession(s.phase), OutsideSession)
    ensures FailureCount(s) == a + b + c + d + e
  {
    hide When, InContinuousSession, G.Blocks;
  }

  lemma RaisesExactly(f: Failure, s: Sighting)
    ensures f in FailureCount(s) <==> Raises(f, s)
  {
    var unfit, limited := s.scout != [] && s.fitness == Unfit, s.scout != [] && s.fitness == FitWithLimitations;
    var raw, suppressed := s.raw != [] && s.fitness == Unfit, s.scout != [] && G.Blocks(s.effect);
    var outside := (s.guardian != [] || s.scout != []) && !InContinuousSession(s.phase);
    WhenHas(unfit, ScoutOnUnfit, f);
    WhenHas(limited, ScoutOnLimited, f);
    WhenHas(raw, GuardianOnUnfit, f);
    WhenHas(suppressed, ScoutWhileSuppressed, f);
    WhenHas(outside, OutsideSession, f);
    hide FailureCount, When, InContinuousSession, G.Blocks;
    var a, b, c := When(unfit, ScoutOnUnfit), When(limited, ScoutOnLimited), When(raw, GuardianOnUnfit);
    var d, e := When(suppressed, ScoutWhileSuppressed), When(outside, OutsideSession);
    Joined(a, b, c, d, e, s);
    JoinedHas(a, b, c, d, e, f);
  }

  lemma RunFailsExactly(f: Failure, r: MetricRun, t: G.Thresholds)
    ensures f in FailureCount(See(r, t)) <==> RunFails(f, r, t)
  {
    RaisesExactly(f, See(r, t));
    Speaking(r, t);
    SuppressedOn(r, t);
    assert See(r, t).fitness == r.fitness && See(r, t).phase == r.phase;
    hide See, FailureCount, G.Blocks, AnyGuardian, AnyScout, AnyRaw, Whole, OneOf;
  }

  lemma MissedExactly(runs: seq<MetricRun>, t: G.Thresholds, code: MetricCode)
    ensures var c := CountsOf(SeeAll(runs, t));
            && (code in NeverOn(c.stressed, c.stressedMatches) <==> MissedStress(runs, t, code))
            && (code in NeverOn(c.strong, c.strongMatches) <==> MissedStrength(runs, t, code))
  {
    RuleCounts(runs, t, code);
    NumberPositive((r: MetricRun) => code in r.stressed && GuardianOn(r, t, code), runs);
    NumberPositive((r: MetricRun) => code in r.strongBroad && ScoutOn(r, t, code), runs);
    hide See, SeeAll, Number, Sum, CountsOf, GuardianOn, ScoutOn;
  }

  lemma FailuresListed(c: Counts, f: Failure)
    ensures f in FailuresOf(c) <==>
            || f in c.failures
            || (f == NoFitEvaluations && c.quality[Fit] == 0)
            || (f == GuardianAlwaysOn && c.quality[Fit] > 0 && AlwaysOn(c.guardian, GUARDIAN_CODES, c.quality[Fit], 80))
            || (f == ScoutAlwaysOn && c.quality[Fit] > 0 && AlwaysOn(c.scout, SCOUT_CODES, c.quality[Fit], 60))
            || (f == GuardianNeverOnStressed && exists code :: code in NeverOn(c.stressed, c.stressedMatches))
            || (f == ScoutNeverOnStrongBroad && exists code :: code in NeverOn(c.strong, c.strongMatches))
  {
    hide AlwaysOn, NeverOn;
  }

  lemma FailuresOfRuns(runs: seq<MetricRun>, t: G.Thresholds, f: Failure)
    ensures f in CountsOf(SeeAll(runs, t)).failures <==> exists r <- runs :: RunFails(f, r, t)
  {
    CountedSome(FailureCount, runs, t, f);
    forall r ensures f in FailureCount(See(r, t)) <==> RunFails(f, r, t) { RunFailsExactly(f, r, t); }
    hide See, SeeAll, Sum, FailureCount, RunFails;
  }

  lemma AlwaysOnExactly(runs: seq<MetricRun>, t: G.Thresholds)
    ensures var c := CountsOf(SeeAll(runs, t));
            && c.quality[Fit] == FitRuns(runs)
            && (AlwaysOn(c.guardian, GUARDIAN_CODES, c.quality[Fit], 80) <==> GuardianAlways(runs, t))
            && (AlwaysOn(c.scout, SCOUT_CODES, c.quality[Fit], 60) <==> ScoutAlways(runs, t))
  {
    QualityCounts(runs, t, Fit);
    forall code
      ensures var c := CountsOf(SeeAll(runs, t));
              && c.guardian[code] == Number(r => GuardianOn(r, t, code), runs)
              && c.scout[code] == Number(r => ScoutOn(r, t, code), runs)
    {
      RuleCounts(runs, t, code);
    }
    hide CountsOf, SeeAll, Number, GuardianOn, ScoutOn;
  }

  lemma MissedSome(runs: seq<MetricRun>, t: G.Thresholds)
    ensures var c := CountsOf(SeeAll(runs, t));
            && ((exists code :: code in NeverOn(c.stressed, c.stressedMatches))
                <==> exists code :: MissedStress(runs, t, code))
            && ((exists code :: code in NeverOn(c.strong, c.strongMatches))
                <==> exists code :: MissedStrength(runs, t, code))
  {
    hide *;
    var c := CountsOf(SeeAll(runs, t));
    var stressed, strong := NeverOn(c.stressed, c.stressedMatches), NeverOn(c.strong, c.strongMatches);
    forall code
      ensures code in stressed <==> MissedStress(runs, t, code)
      ensures code in strong <==> MissedStrength(runs, t, code)
    {
      MissedExactly(runs, t, code);
    }
  }

  lemma ByRunsAlone(f: Failure, r: MetricRun, t: G.Thresholds)
    requires f in {NoFitEvaluations, GuardianAlwaysOn, ScoutAlwaysOn, GuardianNeverOnStressed, ScoutNeverOnStrongBroad}
    ensures !RunFails(f, r, t)
  {
  }

  /** Exactly which failures are reported. */
  lemma FailuresExactly(runs: seq<MetricRun>, t: G.Thresholds, f: Failure)
    ensures f in ReportOf(SeeAll(runs, t)).failures <==> FailsBy(f, runs, t)
  {
    var c := CountsOf(SeeAll(runs, t));
    FailuresListed(c, f);
    FailuresOfRuns(runs, t, f);
    AlwaysOnExactly(runs, t);
    MissedSome(runs, t);
    hide SeeAll, CountsOf, FailuresOf, AlwaysOn, FitRuns, GuardianAlways, ScoutAlways, MissedStress, MissedStrength,
         NeverOn, RunFails;
    forall r | r in runs
      ensures f in {NoFitEvaluations, GuardianAlwaysOn, ScoutAlwaysOn, GuardianNeverOnStressed, ScoutNeverOnStrongBroad}
              ==> !RunFails(f, r, t)
    {
      if f in {NoFitEvaluations, GuardianAlwaysOn, ScoutAlwaysOn, GuardianNeverOnStressed, ScoutNeverOnStrongBroad} {
        ByRunsAlone(f, r, t);
      }
    }
  }

  /** A rule never triggered exactly if it counted on no run. */
  lemma NeverExactly(runs: seq<MetricRun>, t: G.Thresholds, code: MetricCode)
    ensures var never := ReportOf(SeeAll(runs, t)).never;
            && (code in never.guardian <==> code in GUARDIAN_CODES && forall r <- runs :: !GuardianOn(r, t, code))
            && (code in never.scout <==> code in SCOUT_CODES && forall r <- runs :: !ScoutOn(r, t, code))
            && (code in never.onStressed <==> MissedStress(runs, t, code))
            && (code in never.onStrongBroad <==> MissedStrength(runs, t, code))
  {
    RuleCounts(runs, t, code);
    MissedExactly(runs, t, code);
    NumberPositive(r => GuardianOn(r, t, code), runs);
    NumberPositive(r => ScoutOn(r, t, code), runs);
    hide See, SeeAll, Number, Sum, CountsOf, GuardianOn, ScoutOn, FailuresOf, MissedStress, MissedStrength, NeverOn;
  }
}
