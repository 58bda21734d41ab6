/** Calibration: what the thresholds would have done on persisted metric runs, and whether they pass. */
module Calibration {
  import opened Wrappers
  import opened Sorting
  import opened Sequences
  import opened Text
  import opened Counters
  import opened Domain
  import G = Guardian
  import S = Scout

  /** A metric output never reports an unknown fitness. */
  type Reported = f: Fitness | f != UnknownFitness witness Fit

  /** A persisted metric run whose lineage was verified. */
  datatype MetricRun = MetricRun(
    evidence: string, snapshotUid: string, fitness: Reported, phase: SessionPhase,
    guardianValues: map<MetricCode, int>, scoutValues: map<MetricCode, int>,
    stressed: seq<MetricCode>, strongBroad: seq<MetricCode>)

  datatype Failure =
    | NoFitEvaluations | GuardianAlwaysOn | ScoutAlwaysOn | ScoutOnUnfit | ScoutOnLimited | GuardianOnUnfit
    | ScoutWhileSuppressed | OutsideSession | GuardianNeverOnStressed | ScoutNeverOnStrongBroad

  /** What the thresholds make of one run. */
  datatype Sighting = Sighting(
    snapshotUid: string, fitness: Reported, phase: SessionPhase, raw: seq<MetricCode>, guardian: seq<MetricCode>,
    scout: seq<MetricCode>, effect: G.Effect, limited: bool, stressed: seq<MetricCode>, strongBroad: seq<MetricCode>)

  function DecisionOn(r: MetricRun, thresholds: G.Thresholds): G.Decision {
    G.Decide(G.Situation(r.guardianValues, Available, Healthy, r.fitness), Some(thresholds), map[])
  }

  predicate IsLimitation(f: G.Finding) { f.tag == G.DataLimitation }

  function See(r: MetricRun, thresholds: G.Thresholds): Sighting {
    var d := DecisionOn(r, thresholds);
    Sighting(
      r.snapshotUid, r.fitness, r.phase, Map(G.CodeOf, G.MatchingRules(r.guardianValues, thresholds)), d.matches,
      S.ScoutMatches(r.scoutValues, thresholds), d.effect, exists f <- d.findings :: IsLimitation(f),
      r.stressed, r.strongBroad)
  }

  // ---- what one sighting adds to each counter

  predicate Conflicting(s: Sighting) { s.scout != [] && (s.guardian != [] || G.Blocks(s.effect)) }

  function When<T>(condition: bool, x: T): multiset<T> { if condition then multiset{x} else multiset{} }

  function Common(codes: seq<MetricCode>, among: seq<MetricCode>): multiset<MetricCode> {
    multiset(Filter(code => code in among, codes))
  }

  function GuardianCount(s: Sighting): multiset<MetricCode> { multiset(s.guardian) }

  function ScoutCount(s: Sighting): multiset<MetricCode> { multiset(s.scout) }

  function StressedCount(s: Sighting): multiset<MetricCode> { multiset(s.stressed) }

  function StressedMatches(s: Sighting): multiset<MetricCode> { Common(s.guardian, s.stressed) }

  function StrongCount(s: Sighting): multiset<MetricCode> { multiset(s.strongBroad) }

  function StrongMatches(s: Sighting): multiset<MetricCode> { Common(s.scout, s.strongBroad) }

  function QualityCount(s: Sighting): multiset<Fitness> { multiset{s.fitness} }

  function PhaseCount(s: Sighting): multiset<SessionPhase> { multiset{s.phase} }

  function EffectCount(s: Sighting): multiset<G.Effect> { multiset{s.effect} }

  function LimitationCount(s: Sighting): multiset<bool> { multiset{s.limited} }

  function ConflictCount(s: Sighting): multiset<string> { When(Conflicting(s), s.snapshotUid) }

  function FailureCount(s: Sighting): multiset<Failure> {
    When(s.scout != [] && s.fitness == Unfit, ScoutOnUnfit)
    + When(s.scout != [] && s.fitness == FitWithLimitations, ScoutOnLimited)
    + When(s.raw != [] && s.fitness == Unfit, GuardianOnUnfit)
    + When(s.scout != [] && G.Blocks(s.effect), ScoutWhileSuppressed)
    + When((s.guardian != [] || s.scout != []) && !InContinuousSession(s.phase), OutsideSession)
  }

  // ---- the report

  datatype Counts = Counts(
    guardian: multiset<MetricCode>, scout: multiset<MetricCode>, stressed: multiset<MetricCode>,
    stressedMatches: multiset<MetricCode>, strong: multiset<MetricCode>, strongMatches: multiset<MetricCode>,
    quality: multiset<Fitness>, phases: multiset<SessionPhase>, effects: multiset<G.Effect>, limited: multiset<bool>,
    conflicts: multiset<string>, failures: multiset<Failure>)

  function CountsOf(s: seq<Sighting>): Counts {
    Counts(Sum(GuardianCount, s), Sum(ScoutCount, s), Sum(StressedCount, s), Sum(StressedMatches, s),
           Sum(StrongCount, s), Sum(StrongMatches, s), Sum(QualityCount, s), Sum(PhaseCount, s),
           Sum(EffectCount, s), Sum(LimitationCount, s), Sum(ConflictCount, s), Sum(FailureCount, s))
  }

  function NoCounts(): Counts {
    Counts(multiset{}, multiset{}, multiset{}, multiset{}, multiset{}, multiset{}, multiset{}, multiset{},
           multiset{}, multiset{}, multiset{}, multiset{})
  }

  function Counted(c: Counts, s: Sighting): Counts {
    Counts(
      c.guardian + GuardianCount(s), c.scout + ScoutCount(s), c.stressed + StressedCount(s),
      c.stressedMatches + StressedMatches(s), c.strong + StrongCount(s), c.strongMatches + StrongMatches(s),
      c.quality + QualityCount(s), c.phases + PhaseCount(s), c.effects + EffectCount(s),
      c.limited + LimitationCount(s), c.conflicts + ConflictCount(s), c.failures + FailureCount(s))
  }

  predicate AlwaysOn(counter: multiset<MetricCode>, codes: set<MetricCode>, fit: nat, percent: nat) {
    exists code <- codes :: counter[code] * 100 > fit * percent
  }

  /** The codes with samples they should have matched, and no match among them. */
  function NeverOn(samples: multiset<MetricCode>, matches: multiset<MetricCode>): set<MetricCode> {
    set code | code in samples && matches[code] == 0
  }

  function FailuresOf(c: Counts): set<Failure> {
    (set f | f in c.failures)
    + (if c.quality[Fit] == 0 then {NoFitEvaluations}
       else (if AlwaysOn(c.guardian, GUARDIAN_CODES, c.quality[Fit], 80) then {GuardianAlwaysOn} else {})
            + (if AlwaysOn(c.scout, SCOUT_CODES, c.quality[Fit], 60) then {ScoutAlwaysOn} else {}))
    + (if NeverOn(c.stressed, c.stressedMatches) != {} then {GuardianNeverOnStressed} else {})
    + (if NeverOn(c.strong, c.strongMatches) != {} then {ScoutNeverOnStrongBroad} else {})
  }

  /** The rules that were not counted at all, and those without a match among the samples made for them. */
  datatype Never = Never(
    guardian: set<MetricCode>, scout: set<MetricCode>, onStressed: set<MetricCode>, onStrongBroad: set<MetricCode>)

  function NeverOf(c: Counts): Never {
    Never((set code | code in GUARDIAN_CODES && c.guardian[code] == 0),
          (set code | code in SCOUT_CODES && c.scout[code] == 0),
          NeverOn(c.stressed, c.stressedMatches), NeverOn(c.strong, c.strongMatches))
  }

  datatype Report = Report(
    counts: Counts, unfit: nat, limitations: nat, never: Never, failures: set<Failure>, passed: bool)

  function ReportOf(s: seq<Sighting>): Report {
    var c := CountsOf(s);
    Report(c, c.quality[Unfit], c.limited[true], NeverOf(c), FailuresOf(c), FailuresOf(c) == {})
  }

  predicate EvidenceFirst(x: MetricRun, y: MetricRun) {
    if x.evidence == y.evidence then StringLeq(x.snapshotUid, y.snapshotUid) else StringLeq(x.evidence, y.evidence)
  }

  function SeeAll(runs: seq<MetricRun>, thresholds: G.Thresholds): seq<Sighting> {
    Map(r => See(r, thresholds), runs)
  }

  /** The counting loop. */
  method CountRuns(ordered: seq<MetricRun>, thresholds: G.Thresholds) returns (c: Counts)
    ensures c == CountsOf(SeeAll(ordered, thresholds))
  {
    hide See, SeeAll, Counted, CountsOf, NoCounts;
    c := NoCounts();
    NothingSeen(thresholds);
    ghost var seen: seq<Sighting> := [];
    for i := 0 to |ordered|
      invariant seen == SeeAll(ordered[..i], thresholds)
      invariant c == CountsOf(seen)
    {
      SeeOneMore(ordered, i, thresholds);
      var s := See(ordered[i], thresholds);
      CountOneMore(seen, s);
      c := Counted(c, s);
      seen := seen + [s];
    }
    assert ordered[..|ordered|] == ordered;
  }

  /** Runs in the order of their evidence, counted, judged. */
  method Evaluate(runs: seq<MetricRun>, thresholds: G.Thresholds) returns (report: Option<Report>)
    ensures report.None? <==> runs == []
    ensures report.Some? ==> report.value == ReportOf(SeeAll(runs, thresholds))
  {
    if runs == [] {
      return None;
    }
    hide SeeAll, SortBy, CountsOf, FailuresOf, NeverOf;
    var ordered := SortBy(EvidenceFirst, runs);
    var c := CountRuns(ordered, thresholds);
    CountsPermutation(ordered, runs, thresholds);
    var failures := FailuresOf(c);
    return Some(Report(c, c.quality[Unfit], c.limited[true], NeverOf(c), failures, failures == {}));
  }

  lemma NothingSeen(thresholds: G.Thresholds)
    ensures SeeAll([], thresholds) == [] && CountsOf([]) == NoCounts()
  {
  }

  lemma SeeOneMore(runs: seq<MetricRun>, i: nat, thresholds: G.Thresholds)
    requires i < |runs|
    ensures SeeAll(runs[..i + 1], thresholds) == SeeAll(runs[..i], thresholds) + [See(runs[i], thresholds)]
  {
    hide See;
    assert runs[..i + 1] == runs[..i] + [runs[i]];
    MapConcat(r => See(r, thresholds), runs[..i], [runs[i]]);
  }

  lemma CountOneMore(seen: seq<Sighting>, s: Sighting)
    ensures CountsOf(seen + [s]) == Counted(CountsOf(seen), s)
  {
    hide GuardianCount, ScoutCount, StressedCount, StressedMatches, StrongCount, StrongMatches,
         QualityCount, PhaseCount, EffectCount, LimitationCount, ConflictCount, FailureCount;
    assert (seen + [s])[..|seen|] == seen;
  }

  /** The counters do not depend on the order of the runs. */
  lemma CountsPermutation(a: seq<MetricRun>, b: seq<MetricRun>, thresholds: G.Thresholds)
    requires multiset(a) == multiset(b)
    ensures CountsOf(SeeAll(a, thresholds)) == CountsOf(SeeAll(b, thresholds))
  {
    hide See, Sum;
    MapPermutation(r => See(r, thresholds), a, b);
    var x, y := SeeAll(a, thresholds), SeeAll(b, thresholds);
    SumPermutation(GuardianCount, x, y);
    SumPermutation(ScoutCount, x, y);
    SumPermutation(StressedCount, x, y);
    SumPermutation(StressedMatches, x, y);
    SumPermutation(StrongCount, x, y);
    SumPermutation(StrongMatches, x, y);
    SumPermutation(QualityCount, x, y);
    SumPermutation(PhaseCount, x, y);
    SumPermutation(EffectCount, x, y);
    SumPermutation(LimitationCount, x, y);
    SumPermutation(ConflictCount, x, y);
    SumPermutation(FailureCount, x, y);
  }

  // ---- the counters add up

  /** Quality, phase and effect counts each sum to the number of runs. */
  lemma CountsAddUp(s: seq<Sighting>)
    ensures var c := CountsOf(s);
            && |c.phases| == |s| && |c.effects| == |s|
            && c.quality[Fit] + c.quality[FitWithLimitations] + c.quality[Unfit] == |s|
  {
    SumSize(PhaseCount, s);
    SumSize(EffectCount, s);
    QualityAddsUp(s);
    hide Sum;
  }

  lemma {:induction false} QualityAddsUp(s: seq<Sighting>)
    ensures var q := Sum(QualityCount, s); q[Fit] + q[FitWithLimitations] + q[Unfit] == |s|
  {
    if s != [] {
      QualityAddsUp(s[..|s| - 1]);
      var x := s[|s| - 1].fitness;
      assert x == Fit || x == FitWithLimitations || x == Unfit;
    }
  }

  /** An unfit run pauses, and whatever pauses is a data limitation. */
  lemma SightingFacts(r: MetricRun, thresholds: G.Thresholds)
    ensures var s := See(r, thresholds);
            && (s.fitness == Unfit ==> s.effect == G.Pause)
            && (s.effect == G.Pause ==> s.limited)
  {
    var x := G.Situation(r.guardianValues, Available, Healthy, r.fitness);
    G.BlockingExactly(x, thresholds, map[]);
    var d := DecisionOn(r, thresholds);
    if G.IsUnavailable(x) {
      PausedFinding(x, thresholds);
      hide G.Decide, G.MissingFacts;
      assert IsLimitation(d.findings[0]) && d.findings[0] in d.findings;
    }
    hide G.Decide, G.MissingFacts, G.SuppressionMet, S.ScoutMatches, G.MatchingRules;
  }

  lemma PausedFinding(x: G.Situation, thresholds: G.Thresholds)
    requires G.IsUnavailable(x)
    ensures var d := G.Decide(x, Some(thresholds), map[]); d.findings != [] && d.findings[0].tag == G.DataLimitation
  {
    hide G.IsUnavailable, G.MaxEffect, G.MaxSeverity, G.EffectsOf;
    assert G.QualityFindings(x)[0].tag == G.DataLimitation;
  }

  /** The number of pauses lies between the unfit runs and the data limitations. */
  lemma PausesInBetween(runs: seq<MetricRun>, thresholds: G.Thresholds)
    ensures var report := ReportOf(SeeAll(runs, thresholds));
            report.unfit <= report.counts.effects[G.Pause] <= report.limitations
  {
    var s := SeeAll(runs, thresholds);
    hide See, SeeAll, QualityCount, EffectCount, LimitationCount, Sum, FailuresOf;
    forall x | x in s ensures QualityCount(x)[Unfit] <= EffectCount(x)[G.Pause] <= LimitationCount(x)[true] {
      SeenFacts(runs, thresholds, x);
    }
    SumOrder(QualityCount, EffectCount, s, Unfit, G.Pause);
    SumOrder(EffectCount, LimitationCount, s, G.Pause, true);
  }

  lemma SeenFacts(runs: seq<MetricRun>, thresholds: G.Thresholds, s: Sighting)
    requires s in SeeAll(runs, thresholds)
    ensures QualityCount(s)[Unfit] <= EffectCount(s)[G.Pause] <= LimitationCount(s)[true]
  {
    hide See;
    var r := MappedFrom(r => See(r, thresholds), runs, s);
    SightingFacts(r, thresholds);
  }

  // ---- what passing means

  /** The run is one that the thresholds may act on. */
  predicate Sound(s: Sighting) {
    && (s.scout != [] ==> s.fitness == Fit && !G.Blocks(s.effect))
    && (s.raw != [] ==> s.fitness != Unfit)
    && (s.guardian != [] || s.scout != [] ==> InContinuousSession(s.phase))
  }

  lemma SoundExactly(s: Sighting)
    ensures Sound(s) <==> forall f :: f !in FailureCount(s)
  {
    var c := FailureCount(s);
    if s.scout != [] && s.fitness == Unfit { assert ScoutOnUnfit in c; }
    if s.scout != [] && s.fitness == FitWithLimitations { assert ScoutOnLimited in c; }
    if s.raw != [] && s.fitness == Unfit { assert GuardianOnUnfit in c; }
    if s.scout != [] && G.Blocks(s.effect) { assert ScoutWhileSuppressed in c; }
    if (s.guardian != [] || s.scout != []) && !InContinuousSession(s.phase) { assert OutsideSession in c; }
  }

  /** Every code stays within its share of the fit runs. */
  predicate Capped(counter: multiset<MetricCode>, codes: set<MetricCode>, fit: nat, percent: nat) {
    forall code <- codes :: counter[code] * 100 <= fit * percent
  }

  predicate Covered(samples: multiset<MetricCode>, matches: multiset<MetricCode>) {
    forall code <- samples :: matches[code] > 0
  }

  /**
   * PASS is exactly: there are fit runs, every run is sound, no rule fires on more than 80 percent
   * (Guardian) or 60 percent (Scout) of the fit runs, and every code with samples matched one.
   */
  lemma PassedExactly(s: seq<Sighting>)
    ensures var report := ReportOf(s); var c := report.counts;
            report.passed <==>
              && c.quality[Fit] > 0 && (forall x <- s :: Sound(x))
              && Capped(c.guardian, GUARDIAN_CODES, c.quality[Fit], 80)
              && Capped(c.scout, SCOUT_CODES, c.quality[Fit], 60)
              && Covered(c.stressed, c.stressedMatches) && Covered(c.strong, c.strongMatches)
  {
    var c := CountsOf(s);
    NoFailuresExactly(s);
    NeverOnExactly(c.stressed, c.stressedMatches);
    NeverOnExactly(c.strong, c.strongMatches);
    JudgedExactly(c);
    hide Sum, Sound, CountsOf, FailuresOf, NeverOn, Covered;
  }

  lemma NoFailuresExactly(s: seq<Sighting>)
    ensures (set f | f in CountsOf(s).failures) == {} <==> forall x <- s :: Sound(x)
  {
    hide FailureCount, Sound;
    forall x | x in s ensures Sound(x) <==> forall f :: f !in FailureCount(x) { SoundExactly(x); }
    forall f ensures f in Sum(FailureCount, s) <==> exists x <- s :: f in FailureCount(x) {
      SumHas(FailureCount, s, f);
    }
    hide Sum;
    var failures := set f | f in CountsOf(s).failures;
    if failures == {} {
      forall x | x in s ensures Sound(x) {
        forall f ensures f !in FailureCount(x) { assert f in FailureCount(x) ==> f in failures; }
      }
    } else {
      var f :| f in failures;
      var x :| x in s && f in FailureCount(x);
    }
  }

  lemma NeverOnExactly(samples: multiset<MetricCode>, matches: multiset<MetricCode>)
    ensures NeverOn(samples, matches) == {} <==> Covered(samples, matches)
  {
    var never := NeverOn(samples, matches);
    assert forall code <- samples :: code in never <==> matches[code] == 0;
    if never != {} {
      var code :| code in never;
    }
  }

  lemma JudgedExactly(c: Counts)
    ensures FailuresOf(c) == {} <==>
              && (set f | f in c.failures) == {} && c.quality[Fit] != 0
              && !AlwaysOn(c.guardian, GUARDIAN_CODES, c.quality[Fit], 80)
              && !AlwaysOn(c.scout, SCOUT_CODES, c.quality[Fit], 60)
              && NeverOn(c.stressed, c.stressedMatches) == {} && NeverOn(c.strong, c.strongMatches) == {}
  {
    hide AlwaysOn, NeverOn;
    var failures := FailuresOf(c);
    if c.quality[Fit] == 0 { assert NoFitEvaluations in failures; }
    if c.quality[Fit] != 0 && AlwaysOn(c.guardian, GUARDIAN_CODES, c.quality[Fit], 80) {
      assert GuardianAlwaysOn in failures;
    }
    if c.quality[Fit] != 0 && AlwaysOn(c.scout, SCOUT_CODES, c.quality[Fit], 60) { assert ScoutAlwaysOn in failures; }
    if NeverOn(c.stressed, c.stressedMatches) != {} { assert GuardianNeverOnStressed in failures; }
    if NeverOn(c.strong, c.strongMatches) != {} { assert ScoutNeverOnStrongBroad in failures; }
  }

  // ---- what the verdict does not depend on

  /** The whole report is the same for any order of the runs. */
  lemma ReportPermutation(a: seq<MetricRun>, b: seq<MetricRun>, thresholds: G.Thresholds)
    requires multiset(a) == multiset(b)
    ensures ReportOf(SeeAll(a, thresholds)) == ReportOf(SeeAll(b, thresholds))
  {
    hide SeeAll, CountsOf, FailuresOf;
    CountsPermutation(a, b, thresholds);
  }

  ghost predicate Times<T(!new)>(k: nat, x: multiset<T>, y: multiset<T>) { forall t :: y[t] == k * x[t] }

  lemma TimesElements<T(!new)>(k: nat, x: multiset<T>, y: multiset<T>, t: T)
    requires k >= 1 && Times(k, x, y)
    ensures t in y <==> t in x
    ensures y[t] == 0 <==> x[t] == 0
  {
    assert y[t] == k * x[t];
    if x[t] > 0 { assert k * x[t] >= x[t]; }
  }

  lemma TimesShare(k: nat, count: nat, fit: nat, percent: nat)
    requires k >= 1
    ensures k * count * 100 > k * fit * percent <==> count * 100 > fit * percent
  {
    var a, b := count * 100, fit * percent;
    assert k * count * 100 == k * a && k * fit * percent == k * b;
    if a > b { assert k * a > k * b; } else { assert k * a <= k * b; }
  }

  lemma TimesAlwaysOn(
      k: nat, x: multiset<MetricCode>, y: multiset<MetricCode>, codes: set<MetricCode>, fit: nat, percent: nat)
    requires k >= 1 && Times(k, x, y)
    ensures AlwaysOn(y, codes, k * fit, percent) <==> AlwaysOn(x, codes, fit, percent)
  {
    forall code ensures y[code] * 100 > k * fit * percent <==> x[code] * 100 > fit * percent {
      TimesShare(k, x[code], fit, percent);
      assert y[code] == k * x[code];
    }
  }

  lemma TimesNeverOn(
    k: nat, x: multiset<MetricCode>, y: multiset<MetricCode>, mx: multiset<MetricCode>, my: multiset<MetricCode>)
    requires k >= 1 && Times(k, x, y) && Times(k, mx, my)
    ensures NeverOn(y, my) == NeverOn(x, mx)
  {
    forall code ensures code in NeverOn(y, my) <==> code in NeverOn(x, mx) {
      TimesElements(k, x, y, code);
      TimesElements(k, mx, my, code);
    }
  }

  lemma TimesFailures(k: nat, x: multiset<Failure>, y: multiset<Failure>)
    requires k >= 1 && Times(k, x, y)
    ensures (set f | f in y) == (set f | f in x)
  {
    forall f ensures f in y <==> f in x { TimesElements(k, x, y, f); }
  }

  lemma TimesJudged(k: nat, c: Counts, d: Counts)
    requires k >= 1 && Times(k, c.failures, d.failures) && Times(k, c.quality, d.quality)
    requires Times(k, c.guardian, d.guardian) && Times(k, c.scout, d.scout)
    requires Times(k, c.stressed, d.stressed) && Times(k, c.stressedMatches, d.stressedMatches)
    requires Times(k, c.strong, d.strong) && Times(k, c.strongMatches, d.strongMatches)
    ensures FailuresOf(d) == FailuresOf(c) && NeverOf(d) == NeverOf(c)
  {
    forall code ensures d.guardian[code] == 0 <==> c.guardian[code] == 0 { TimesElements(k, c.guardian, d.guardian, code); }
    forall code ensures d.scout[code] == 0 <==> c.scout[code] == 0 { TimesElements(k, c.scout, d.scout, code); }
    TimesFailures(k, c.failures, d.failures);
    TimesNeverOn(k, c.stressed, d.stressed, c.stressedMatches, d.stressedMatches);
    TimesNeverOn(k, c.strong, d.strong, c.strongMatches, d.strongMatches);
    TimesElements(k, c.quality, d.quality, Fit);
    assert d.quality[Fit] == k * c.quality[Fit];
    TimesAlwaysOn(k, c.guardian, d.guardian, GUARDIAN_CODES, c.quality[Fit], 80);
    TimesAlwaysOn(k, c.scout, d.scout, SCOUT_CODES, c.quality[Fit], 60);
    hide AlwaysOn, NeverOn, Times;
  }

  lemma SumTimes<T(!new)>(f: Sighting -> multiset<T>, s: seq<Sighting>, k: nat)
    ensures Times(k, Sum(f, s), Sum(f, Repeat(s, k)))
  {
    forall t ensures Sum(f, Repeat(s, k))[t] == k * Sum(f, s)[t] { SumRepeat(f, s, k, t); }
  }

  lemma SeeConcat(a: seq<MetricRun>, b: seq<MetricRun>, thresholds: G.Thresholds)
    ensures SeeAll(a + b, thresholds) == SeeAll(a, thresholds) + SeeAll(b, thresholds)
  {
    hide See;
    MapConcat(r => See(r, thresholds), a, b);
  }

  lemma {:induction false} SeeRepeated(runs: seq<MetricRun>, thresholds: G.Thresholds, k: nat)
    ensures SeeAll(Repeat(runs, k), thresholds) == Repeat(SeeAll(runs, thresholds), k)
  {
    hide SeeAll;
    if k == 0 {
      NothingSeen(thresholds);
    } else {
      SeeRepeated(runs, thresholds, k - 1);
      SeeConcat(Repeat(runs, k - 1), runs, thresholds);
    }
  }

  /** Repeating every run k times changes neither the failures, nor what never triggered, nor the verdict. */
  lemma VerdictRepetition(runs: seq<MetricRun>, thresholds: G.Thresholds, k: nat)
    requires k >= 1
    ensures var once, often := ReportOf(SeeAll(runs, thresholds)), ReportOf(SeeAll(Repeat(runs, k), thresholds));
            often.failures == once.failures && often.never == once.never && often.passed == once.passed
  {
    hide SeeAll, Sum, Times, FailuresOf, NeverOf;
    var s := SeeAll(runs, thresholds);
    SeeRepeated(runs, thresholds, k);
    SumTimes(FailureCount, s, k);
    SumTimes(QualityCount, s, k);
    SumTimes(GuardianCount, s, k);
    SumTimes(ScoutCount, s, k);
    SumTimes(StressedCount, s, k);
    SumTimes(StressedMatches, s, k);
    SumTimes(StrongCount, s, k);
    SumTimes(StrongMatches, s, k);
    TimesJudged(k, CountsOf(s), CountsOf(Repeat(s, k)));
  }

  // ---- a counter counts runs

  lemma RulesApart()
    ensures DistinctBy(G.CodeOf, G.Rules())
  {
  }

  lemma GuardianOnce(r: MetricRun, thresholds: G.Thresholds, code: MetricCode)
    ensures GuardianCount(See(r, thresholds))[code] <= 1
  {
    RulesApart();
    hide G.Rules, S.ScoutMatches, G.MissingFacts, G.IsUnavailable, G.FindingsOf, G.EffectsOf, G.Met;
    var s := G.Situation(r.guardianValues, Available, Healthy, r.fitness);
    var rules := G.CountingRules(s, Some(thresholds));
    FilterDistinct(G.CodeOf, rule => G.Met(r.guardianValues, thresholds, rule), G.Rules());
    hide Filter;
    DistinctOnce(G.CodeOf, rules, code);
    assert See(r, thresholds).guardian == Map(G.CodeOf, rules);
  }

  predicate Matched(code: MetricCode, s: Sighting) { code in s.guardian }

  /** The Guardian count of a code is the number of runs on which its rule counted. */
  lemma GuardianCountsRuns(runs: seq<MetricRun>, thresholds: G.Thresholds, code: MetricCode)
    ensures var s := SeeAll(runs, thresholds);
            CountsOf(s).guardian[code] == |Filter(x => Matched(code, x), s)|
  {
    var s := SeeAll(runs, thresholds);
    hide SeeAll, Sum, Filter;
    forall x | x in s ensures GuardianCount(x)[code] <= 1 && (Matched(code, x) <==> code in GuardianCount(x)) {
      SeenOnce(runs, thresholds, x, code);
    }
    SumCountsElements(GuardianCount, x => Matched(code, x), s, code);
  }

  /** A Guardian rule is listed as never triggered exactly if it counted on no run. */
  lemma NeverTriggered(runs: seq<MetricRun>, thresholds: G.Thresholds, code: MetricCode)
    requires code in GUARDIAN_CODES
    ensures code in ReportOf(SeeAll(runs, thresholds)).never.guardian
            <==> forall r <- runs :: code !in See(r, thresholds).guardian
  {
    GuardianCountsRuns(runs, thresholds, code);
    var s := SeeAll(runs, thresholds);
    NoneKept(x => Matched(code, x), s);
    hide FailuresOf, NeverOn, See, Sum;
    assert forall i | 0 <= i < |runs| :: s[i] == See(runs[i], thresholds);
    forall r | r in runs && code in See(r, thresholds).guardian ensures exists x <- s :: Matched(code, x) {
      var i :| 0 <= i < |runs| && runs[i] == r;
      assert s[i] in s && Matched(code, s[i]);
    }
  }

  lemma {:induction false} NoneKept<T>(keep: T -> bool, s: seq<T>)
    ensures |Filter(keep, s)| == 0 <==> forall x <- s :: !keep(x)
  {
    if s != [] { NoneKept(keep, s[1..]); }
  }

  lemma SeenOnce(runs: seq<MetricRun>, thresholds: G.Thresholds, s: Sighting, code: MetricCode)
    requires s in SeeAll(runs, thresholds)
    ensures GuardianCount(s)[code] <= 1 && (Matched(code, s) <==> code in GuardianCount(s))
  {
    hide See;
    var r := MappedFrom(r => See(r, thresholds), runs, s);
    GuardianOnce(r, thresholds, code);
  }

  // ---- the values of a persisted output

  datatype ReadingStatus = HasValue | IsMissing | IsNotApplicable | OtherStatus(name: string)

  datatype Reading = Reading(code: MetricCode, status: ReadingStatus, value: Option<int>)

  predicate Readable(r: Reading) {
    match r.status
    case HasValue => r.value.Some? && 0 <= r.value.value <= 1_000_000
    case OtherStatus(_) => false
    case _ => r.value.None?
  }

  function ReadingCode(r: Reading): MetricCode { r.code }

  /** An entry with a value carries a whole PPM, one that is missing or not applicable carries none, others are refused. */
  ghost predicate InOrder(rows: seq<Reading>) {
    && (forall i :: 0 <= i < |rows| ==>
          rows[i].status == HasValue || rows[i].status == IsMissing || rows[i].status == IsNotApplicable)
    && (forall i :: 0 <= i < |rows| && rows[i].status == HasValue ==>
          rows[i].value.Some? && 0 <= rows[i].value.value <= 1_000_000)
    && (forall i :: 0 <= i < |rows| && rows[i].status != HasValue ==> rows[i].value == None)
  }

  lemma InOrderExactly(rows: seq<Reading>)
    ensures InOrder(rows) <==> forall r <- rows :: Readable(r)
  {
    forall i | 0 <= i < |rows| ensures rows[i] in rows {}
  }

  /** Each expected code has one readable entry, and no other code has any. */
  ghost predicate Complete(rows: seq<Reading>, expected: set<MetricCode>) {
    && (forall r <- rows :: Readable(r)) && DistinctBy(ReadingCode, rows)
    && forall code :: code in expected <==> exists r <- rows :: r.code == code
  }

  /** The codes with a value, and their values. */
  ghost predicate ValuesAre(rows: seq<Reading>, values: map<MetricCode, int>) {
    && (forall r <- rows :: r.status == HasValue ==> r.code in values && r.value == Some(values[r.code]))
    && forall code <- values :: exists r <- rows :: r.code == code && r.status == HasValue
  }

  ghost predicate ReadSoFar(rows: seq<Reading>, seen: set<MetricCode>, values: map<MetricCode, int>) {
    && (forall r <- rows :: Readable(r)) && DistinctBy(ReadingCode, rows)
    && (forall code :: code in seen <==> exists r <- rows :: r.code == code)
    && ValuesAre(rows, values)
  }

  lemma ValuesOneMore(rows: seq<Reading>, values: map<MetricCode, int>, r: Reading)
    requires ValuesAre(rows, values) && Readable(r) && forall x <- rows :: x.code != r.code
    ensures ValuesAre(rows + [r], if r.status == HasValue then values[r.code := r.value.value] else values)
  {
    var longer := rows + [r];
    var more := if r.status == HasValue then values[r.code := r.value.value] else values;
    forall code | code in more ensures exists x <- longer :: x.code == code && x.status == HasValue {
      if code in values {
        var x :| x in rows && x.code == code && x.status == HasValue;
        assert x in longer;
      } else {
        assert r in longer;
      }
    }
  }

  lemma ReadOneMore(rows: seq<Reading>, seen: set<MetricCode>, values: map<MetricCode, int>, r: Reading)
    requires ReadSoFar(rows, seen, values) && Readable(r) && r.code !in seen
    ensures ReadSoFar(rows + [r], seen + {r.code},
                      if r.status == HasValue then values[r.code := r.value.value] else values)
  {
    var longer := rows + [r];
    assert r in longer && forall x <- rows :: x in longer;
    assert forall x <- rows :: x.code in seen;
    ValuesOneMore(rows, values, r);
    hide Readable, ValuesAre;
    forall i, j | 0 <= i < j < |longer| ensures ReadingCode(longer[i]) != ReadingCode(longer[j]) {
      if j == |rows| { assert longer[i] == rows[i] && rows[i] in rows; }
    }
  }

  /** Reads the entries one by one, refusing a repeated, unreadable, unexpected or absent one. */
  method MetricValues(rows: seq<Reading>, expected: set<MetricCode>) returns (values: Option<map<MetricCode, int>>)
    ensures values.Some? <==> Complete(rows, expected)
    ensures values.Some? ==> ValuesAre(rows, values.value) && InOrder(rows)
  {
    InOrderExactly(rows);
    hide Readable, ReadSoFar, InOrder;
    var seen: set<MetricCode>, found: map<MetricCode, int> := {}, map[];
    NothingRead();
    for i := 0 to |rows|
      invariant ReadSoFar(rows[..i], seen, found)
    {
      var r := rows[i];
      assert rows[..i + 1] == rows[..i] + [r] && r in rows;
      if r.code in seen {
        RepeatedIsIncomplete(rows, i, seen, found, expected);
        return None;
      }
      if !Readable(r) {
        return None;
      }
      ReadOneMore(rows[..i], seen, found, r);
      seen := seen + {r.code};
      if r.status == HasValue {
        ReadableValue(r);
        found := found[r.code := r.value.value];
      }
    }
    assert rows[..|rows|] == rows;
    AllRead(rows, seen, found, expected);
    return if seen == expected then Some(found) else None;
  }

  lemma NothingRead()
    ensures ReadSoFar([], {}, map[])
  {
  }

  lemma ReadableValue(r: Reading)
    requires Readable(r) && r.status == HasValue
    ensures r.value.Some?
  {
  }

  lemma RepeatedIsIncomplete(
    rows: seq<Reading>, i: nat, seen: set<MetricCode>, values: map<MetricCode, int>, expected: set<MetricCode>)
    requires i < |rows| && ReadSoFar(rows[..i], seen, values) && rows[i].code in seen
    ensures !Complete(rows, expected)
  {
    var r :| r in rows[..i] && r.code == rows[i].code;
    var j :| 0 <= j < i && rows[..i][j] == r;
    assert ReadingCode(rows[j]) == ReadingCode(rows[i]);
  }

  lemma AllRead(rows: seq<Reading>, seen: set<MetricCode>, values: map<MetricCode, int>, expected: set<MetricCode>)
    requires ReadSoFar(rows, seen, values)
    ensures Complete(rows, expected) <==> seen == expected
    ensures ValuesAre(rows, values)
  {
    hide Readable, ValuesAre;
    if Complete(rows, expected) {
      forall code ensures code in seen <==> code in expected {}
    }
  }
}
