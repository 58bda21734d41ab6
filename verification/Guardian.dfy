/** The Guardian: quality and threshold rules combined into one protective effect. */
module Guardian {
  import opened Wrappers
  import opened Sequences
  import opened Domain

  datatype Effect = Allow | AllowWithWarning | Downgrade | Suppress | Pause

  datatype Severity = NoSeverity | Info | Warning | High | Critical

  datatype RiskTag =
    | DataLimitation | RisingTooFast | HeadConcentrationHigh | Diverging | CrowdingIncreasing
    | LiquidityWeak | CoreMembersWeakening | BreadthCollapsing | Stampeding | ChasingRisk
    | EarlySignalFailed

  datatype RiskReason = FactsMissing | QualityRequiresPause | QualityLimited | ThresholdMet(tag: RiskTag)

  datatype Finding = Finding(tag: RiskTag, severity: Severity, reason: RiskReason, fact: Option<string>)

  datatype Rule = Rule(code: MetricCode, tag: RiskTag, severity: Severity, effect: Effect)

  function Rules(): seq<Rule> {
    [Rule(RiseRate, RisingTooFast, High, Downgrade),
     Rule(HeadConcentration, HeadConcentrationHigh, High, Downgrade),
     Rule(InternalDivergence, Diverging, High, Downgrade),
     Rule(Crowding, CrowdingIncreasing, High, Downgrade),
     Rule(LiquidityWeakening, LiquidityWeak, Warning, AllowWithWarning),
     Rule(CoreWeakening, CoreMembersWeakening, High, Downgrade),
     Rule(BreadthCollapse, BreadthCollapsing, Critical, Suppress),
     Rule(StampedeRisk, Stampeding, Critical, Suppress),
     Rule(T1Chasing, ChasingRisk, Critical, Suppress),
     Rule(EarlySignalFailure, EarlySignalFailed, Warning, Downgrade)]
  }

  function EffectRank(e: Effect): nat {
    match e case Allow => 0 case AllowWithWarning => 1 case Downgrade => 2 case Suppress => 3 case Pause => 4
  }

  function SeverityRank(s: Severity): nat {
    match s case NoSeverity => 0 case Info => 1 case Warning => 2 case High => 3 case Critical => 4
  }

  predicate Blocks(e: Effect) { e == Suppress || e == Pause }

  /** What is known about a subject when the Guardian looks at it. */
  datatype Situation = Situation(
    metrics: map<MetricCode, int>, availability: Availability, health: Health, fitness: Fitness)

  datatype Decision = Decision(
    matches: seq<MetricCode>, findings: seq<Finding>, effect: Effect, blocking: bool,
    severity: Severity, unavailable: bool)

  predicate MissingFacts(metrics: map<MetricCode, int>) {
    exists code <- GUARDIAN_CODES :: code !in metrics
  }

  predicate IsUnavailable(s: Situation) {
    || s.availability != Available
    || s.health == UnknownHealth || s.health == Unhealthy
    || s.fitness == UnknownFitness || s.fitness == Unfit
    || MissingFacts(s.metrics)
  }

  predicate IsLimited(s: Situation) { s.health == Degraded || s.fitness == FitWithLimitations }

  /** A set of thresholds carries one value for each code of its family. */
  type Thresholds = t: map<MetricCode, int> | ALL_CODES <= t.Keys
    witness map code | code in ALL_CODES :: 0

  predicate Met(metrics: map<MetricCode, int>, thresholds: Thresholds, r: Rule) {
    r.code in metrics && r.code in thresholds && metrics[r.code] >= thresholds[r.code]
  }

  function MatchingRules(metrics: map<MetricCode, int>, thresholds: Thresholds): seq<Rule> {
    Filter(r => Met(metrics, thresholds, r), Rules())
  }

  function MaxEffect(effects: seq<Effect>): (r: Effect)
    ensures effects == [] ==> r == Allow
    ensures effects != [] ==> r in effects
    ensures forall e <- effects :: EffectRank(e) <= EffectRank(r)
  {
    if effects == [] then Allow
    else
      var rest, last := MaxEffect(effects[..|effects| - 1]), effects[|effects| - 1];
      if |effects| == 1 || EffectRank(last) > EffectRank(rest) then last else rest
  }

  function MaxSeverity(findings: seq<Finding>): (r: Severity)
    ensures findings == [] ==> r == NoSeverity
    ensures findings != [] ==> exists f <- findings :: f.severity == r
    ensures forall f <- findings :: SeverityRank(f.severity) <= SeverityRank(r)
  {
    if findings == [] then NoSeverity
    else
      var rest, last := MaxSeverity(findings[..|findings| - 1]), findings[|findings| - 1];
      if |findings| == 1 || SeverityRank(last.severity) > SeverityRank(rest) then last.severity else rest
  }

  function QualityFindings(s: Situation): seq<Finding> {
    if IsUnavailable(s) then
      [Finding(DataLimitation, Critical,
               if MissingFacts(s.metrics) then FactsMissing else QualityRequiresPause, None)]
    else if IsLimited(s) then [Finding(DataLimitation, Warning, QualityLimited, None)]
    else []
  }

  function QualityEffects(s: Situation): seq<Effect> {
    if IsUnavailable(s) then [Pause] else if IsLimited(s) then [AllowWithWarning] else []
  }

  function FactOf(facts: map<MetricCode, string>, code: MetricCode): Option<string> {
    if code in facts then Some(facts[code]) else None
  }

  function FindingOf(facts: map<MetricCode, string>, r: Rule): Finding {
    Finding(r.tag, r.severity, ThresholdMet(r.tag), FactOf(facts, r.code))
  }

  /** The rules that count: none while unavailable, none before thresholds are resolved. */
  function CountingRules(s: Situation, thresholds: Option<Thresholds>): seq<Rule> {
    if IsUnavailable(s) || thresholds.None? then [] else MatchingRules(s.metrics, thresholds.value)
  }

  function EffectOf(r: Rule): Effect { r.effect }

  function CodeOf(r: Rule): MetricCode { r.code }

  function EffectsOf(s: Situation, rules: seq<Rule>): seq<Effect> {
    QualityEffects(s) + Map(EffectOf, rules)
  }

  function FindingsOf(s: Situation, rules: seq<Rule>, facts: map<MetricCode, string>): seq<Finding> {
    QualityFindings(s) + Map(r => FindingOf(facts, r), rules)
  }

  function Conclude(s: Situation, rules: seq<Rule>, facts: map<MetricCode, string>): Decision {
    var effect := MaxEffect(EffectsOf(s, rules));
    Decision(Map(CodeOf, rules), FindingsOf(s, rules, facts), effect, Blocks(effect),
             MaxSeverity(FindingsOf(s, rules, facts)), IsUnavailable(s))
  }

  function Decide(s: Situation, thresholds: Option<Thresholds>, facts: map<MetricCode, string>): Decision {
    Conclude(s, CountingRules(s, thresholds), facts)
  }

  // ---- the implementations

  lemma ConclusionGrows(s: Situation, rules: seq<Rule>, facts: map<MetricCode, string>, r: Rule)
    ensures Map(CodeOf, rules + [r]) == Map(CodeOf, rules) + [r.code]
    ensures FindingsOf(s, rules + [r], facts) == FindingsOf(s, rules, facts) + [FindingOf(facts, r)]
    ensures EffectsOf(s, rules + [r]) == EffectsOf(s, rules) + [r.effect]
  {
    hide QualityFindings, QualityEffects, FindingOf;
  }

  lemma NothingCounted(s: Situation, facts: map<MetricCode, string>)
    ensures FindingsOf(s, [], facts) == QualityFindings(s) && EffectsOf(s, []) == QualityEffects(s)
  {
    hide QualityFindings, QualityEffects;
  }

  /** The decision without persistence: findings and effects appended rule by rule. */
  method GuardianDecision(s: Situation, thresholds: Option<Thresholds>, facts: map<MetricCode, string>)
    returns (d: Decision)
    ensures d == Decide(s, thresholds, facts)
  {
    hide Rules, Met, FindingOf, IsUnavailable, MaxEffect, MaxSeverity, QualityFindings, QualityEffects, FindingsOf,
         EffectsOf;
    var unavailable := IsUnavailable(s);
    var findings, effects := QualityFindings(s), QualityEffects(s);
    NothingCounted(s, facts);
    var matches: seq<MetricCode> := [];
    ghost var counted: seq<Rule> := [];
    if !unavailable && thresholds.Some? {
      ghost var met := r => Met(s.metrics, thresholds.value, r);
      for i := 0 to |Rules()|
        invariant counted == Filter(met, Rules()[..i]) && matches == Map(CodeOf, counted)
        invariant findings == FindingsOf(s, counted, facts) && effects == EffectsOf(s, counted)
      {
        var rule := Rules()[i];
        assert Rules()[..i + 1] == Rules()[..i] + [rule];
        FilterSnoc(met, Rules()[..i], rule);
        if Met(s.metrics, thresholds.value, rule) {
          ConclusionGrows(s, counted, facts, rule);
          matches := matches + [rule.code];
          findings := findings + [FindingOf(facts, rule)];
          effects := effects + [rule.effect];
          counted := counted + [rule];
        }
      }
      assert Rules()[..|Rules()|] == Rules();
    }
    assert counted == CountingRules(s, thresholds);
    var effect := MaxEffect(effects);
    d := Decision(matches, findings, effect, Blocks(effect), MaxSeverity(findings), unavailable);
  }

  /** The service asks first without thresholds and resolves them only when it may use them. */
  method EvaluateInTwoPhases(s: Situation, thresholds: Thresholds, facts: map<MetricCode, string>)
    returns (d: Decision)
    ensures d == Decide(s, Some(thresholds), facts)
  {
    d := GuardianDecision(s, None, facts);
    if !d.unavailable {
      d := GuardianDecision(s, Some(thresholds), facts);
    }
  }

  // ---- what the decision means

  /** The rules that count, code by code. */
  lemma CountingExactly(s: Situation, thresholds: Thresholds, r: Rule)
    requires !IsUnavailable(s)
    ensures r in CountingRules(s, Some(thresholds)) <==> r in Rules() && Met(s.metrics, thresholds, r)
  {
    FilterMembers(r => Met(s.metrics, thresholds, r), Rules());
  }

  predicate SuppressingCode(code: MetricCode) {
    code == BreadthCollapse || code == StampedeRisk || code == T1Chasing
  }

  lemma RuleFacts(r: Rule)
    requires r in Rules()
    ensures r.effect != Allow && r.effect != Pause && r.code in GUARDIAN_CODES
    ensures r.effect == Suppress <==> SuppressingCode(r.code)
  {
  }

  lemma SuppressingRule(code: MetricCode) returns (r: Rule)
    requires SuppressingCode(code)
    ensures r in Rules() && r.code == code && r.effect == Suppress
  {
    r := Rules()[if code == BreadthCollapse then 6 else if code == StampedeRisk then 7 else 8];
  }

  /** One of the three rules that suppress has its threshold met. */
  predicate SuppressionMet(s: Situation, thresholds: Thresholds) {
    exists code <- ALL_CODES :: SuppressingCode(code)
      && code in s.metrics && code in thresholds && s.metrics[code] >= thresholds[code]
  }

  lemma SuppressionCounts(s: Situation, thresholds: Thresholds)
    requires !IsUnavailable(s)
    ensures SuppressionMet(s, thresholds) <==>
            exists r <- CountingRules(s, Some(thresholds)) :: r.effect == Suppress
  {
    hide Rules, SuppressingCode, CountingRules, IsUnavailable;
    if SuppressionMet(s, thresholds) {
      var code :| code in ALL_CODES && SuppressingCode(code)
        && code in s.metrics && code in thresholds && s.metrics[code] >= thresholds[code];
      var r := SuppressingRule(code);
      CountingExactly(s, thresholds, r);
    }
    forall r | r in CountingRules(s, Some(thresholds)) && r.effect == Suppress
      ensures SuppressionMet(s, thresholds)
    {
      CountingExactly(s, thresholds, r);
      RuleFacts(r);
      assert r.code in ALL_CODES;
    }
  }

  lemma AvailableEffects(s: Situation, thresholds: Thresholds)
    requires !IsUnavailable(s)
    ensures var effects := EffectsOf(s, CountingRules(s, Some(thresholds)));
            && Pause !in effects && Allow !in effects
            && (Suppress in effects <==> SuppressionMet(s, thresholds))
  {
    hide Rules, SuppressionMet, CountingRules;
    SuppressionCounts(s, thresholds);
    var rules := CountingRules(s, Some(thresholds));
    forall r | r in rules ensures r.effect != Allow && r.effect != Pause {
      CountingExactly(s, thresholds, r);
      RuleFacts(r);
    }
    forall e | e in Map(EffectOf, rules) ensures exists r <- rules :: r.effect == e {
      var r := MappedFrom(EffectOf, rules, e);
    }
    forall r | r in rules ensures r.effect in Map(EffectOf, rules) { MappedMember(EffectOf, rules, r); }
  }

  lemma UnavailablePauses(s: Situation, thresholds: Thresholds, facts: map<MetricCode, string>)
    requires IsUnavailable(s)
    ensures Decide(s, Some(thresholds), facts).effect == Pause
    ensures Decide(s, Some(thresholds), facts).severity == Critical
  {
    hide Rules, IsUnavailable;
    assert EffectsOf(s, [])[0] == Pause;
    assert FindingsOf(s, [], facts)[0].severity == Critical;
  }

  lemma NoEffects(s: Situation, rules: seq<Rule>)
    requires !IsUnavailable(s)
    ensures EffectsOf(s, rules) == [] <==> !IsLimited(s) && rules == []
  {
    hide IsUnavailable, IsLimited;
  }

  lemma WorstOf(effects: seq<Effect>)
    requires Pause !in effects && Allow !in effects
    ensures MaxEffect(effects) != Pause
    ensures Blocks(MaxEffect(effects)) <==> Suppress in effects
    ensures MaxEffect(effects) == Allow <==> effects == []
  {
  }

  /** Exactly when the Guardian pauses, when it blocks, and when it allows. */
  lemma BlockingExactly(s: Situation, thresholds: Thresholds, facts: map<MetricCode, string>)
    ensures var d := Decide(s, Some(thresholds), facts);
            && (d.effect == Pause <==> IsUnavailable(s))
            && (d.blocking <==> IsUnavailable(s) || SuppressionMet(s, thresholds))
            && (d.effect == Allow <==> !IsUnavailable(s) && !IsLimited(s) && d.matches == [])
  {
    if IsUnavailable(s) {
      UnavailablePauses(s, thresholds, facts);
    } else {
      AvailableEffects(s, thresholds);
      hide SuppressionMet, CountingRules, FindingsOf, MaxSeverity, IsUnavailable, EffectsOf, MaxEffect;
      var rules := CountingRules(s, Some(thresholds));
      NoEffects(s, rules);
      WorstOf(EffectsOf(s, rules));
    }
  }

  // ---- every effect, severity and finding, from the metrics and the quality alone

  /** The metric is there and reaches its threshold. */
  predicate MetricMet(s: Situation, thresholds: Thresholds, code: MetricCode) {
    code in s.metrics && code in thresholds && s.metrics[code] >= thresholds[code]
  }

  const SUPPRESSING: set<MetricCode> := {BreadthCollapse, StampedeRisk, T1Chasing}
  const HIGH_RISKS: set<MetricCode> := {RiseRate, HeadConcentration, InternalDivergence, Crowding, CoreWeakening}

  /** One of the codes is met. */
  predicate AnyMet(s: Situation, t: Thresholds, codes: set<MetricCode>) { exists code <- codes :: MetricMet(s, t, code) }

  /** What a code that is met brings about: three suppress, liquidity only warns, the others downgrade. */
  function EffectFor(code: MetricCode): Effect {
    if code in SUPPRESSING then Suppress else if code == LiquidityWeakening then AllowWithWarning else Downgrade
  }

  function SeverityFor(code: MetricCode): Severity {
    if code in SUPPRESSING then Critical else if code in HIGH_RISKS then High else Warning
  }

  function TagFor(code: MetricCode): RiskTag {
    match code
    case RiseRate => RisingTooFast case HeadConcentration => HeadConcentrationHigh case InternalDivergence => Diverging
    case Crowding => CrowdingIncreasing case LiquidityWeakening => LiquidityWeak case CoreWeakening => CoreMembersWeakening
    case BreadthCollapse => BreadthCollapsing case StampedeRisk => Stampeding case T1Chasing => ChasingRisk
    case EarlySignalFailure => EarlySignalFailed
    case _ => DataLimitation
  }

  lemma RulesExactly()
    ensures forall r <- Rules() ::
              && r.code in GUARDIAN_CODES && r.effect == EffectFor(r.code) && r.severity == SeverityFor(r.code)
              && r.tag == TagFor(r.code)
  {
  }

  lemma RuleOf(code: MetricCode) returns (r: Rule)
    requires code in GUARDIAN_CODES
    ensures r in Rules() && r.code == code
  {
    var i := match code
      case RiseRate => 0 case HeadConcentration => 1 case InternalDivergence => 2 case Crowding => 3
      case LiquidityWeakening => 4 case CoreWeakening => 5 case BreadthCollapse => 6 case StampedeRisk => 7
      case T1Chasing => 8 case _ => 9;
    r := Rules()[i];
  }

  /** The rules that count while the data can be relied on are those of the codes met. */
  lemma CountingCodes(s: Situation, t: Thresholds)
    requires !IsUnavailable(s)
    ensures forall r <- CountingRules(s, Some(t)) ::
              && r.code in GUARDIAN_CODES && MetricMet(s, t, r.code)
              && r.effect == EffectFor(r.code) && r.severity == SeverityFor(r.code) && r.tag == TagFor(r.code)
    ensures forall code <- GUARDIAN_CODES :: MetricMet(s, t, code) ==>
              exists r <- CountingRules(s, Some(t)) :: r.code == code
  {
    RulesExactly();
    hide Rules, EffectFor, SeverityFor, TagFor, CountingRules;
    forall r | r in CountingRules(s, Some(t))
      ensures r in Rules() && MetricMet(s, t, r.code)
    {
      CountingExactly(s, t, r);
    }
    forall code | code in GUARDIAN_CODES && MetricMet(s, t, code)
      ensures exists r <- CountingRules(s, Some(t)) :: r.code == code
    {
      var r := RuleOf(code);
      CountingExactly(s, t, r);
    }
  }

  const DOWNGRADING: set<MetricCode> := HIGH_RISKS + {EarlySignalFailure}

  lemma CodesByEffect(code: MetricCode)
    requires code in GUARDIAN_CODES
    ensures EffectFor(code) == Suppress <==> code in SUPPRESSING
    ensures EffectFor(code) == Downgrade <==> code in DOWNGRADING
    ensures EffectFor(code) == AllowWithWarning <==> code == LiquidityWeakening
    ensures SeverityFor(code) == Critical <==> code in SUPPRESSING
    ensures SeverityFor(code) == High <==> code in HIGH_RISKS
    ensures SeverityFor(code) == Warning <==> code in {LiquidityWeakening, EarlySignalFailure}
  {
  }

  lemma CodesSplit(s: Situation, t: Thresholds)
    ensures AnyMet(s, t, GUARDIAN_CODES)
            <==> AnyMet(s, t, SUPPRESSING) || AnyMet(s, t, DOWNGRADING) || MetricMet(s, t, LiquidityWeakening)
    ensures forall code <- SUPPRESSING + DOWNGRADING + {LiquidityWeakening} :: code in GUARDIAN_CODES
  {
    hide MetricMet;
    assert GUARDIAN_CODES == SUPPRESSING + DOWNGRADING + {LiquidityWeakening};
  }

  /** The effect e is among those of the rules exactly if a code with that effect is met. */
  lemma EffectPresent(s: Situation, t: Thresholds, e: Effect)
    requires !IsUnavailable(s)
    ensures e in Map(EffectOf, CountingRules(s, Some(t)))
            <==> exists code <- GUARDIAN_CODES :: MetricMet(s, t, code) && EffectFor(code) == e
  {
    CountingCodes(s, t);
    hide CountingRules, IsUnavailable, MetricMet, EffectFor, SeverityFor, TagFor;
    var rules := CountingRules(s, Some(t));
    forall code | code in GUARDIAN_CODES && MetricMet(s, t, code)
      ensures EffectFor(code) in Map(EffectOf, rules)
    {
      var r :| r in rules && r.code == code;
      MappedMember(EffectOf, rules, r);
    }
    if e in Map(EffectOf, rules) { var r := MappedFrom(EffectOf, rules, e); }
  }

  /** Which effects there are to choose the worst of. */
  lemma EffectsExactly(s: Situation, t: Thresholds)
    requires !IsUnavailable(s)
    ensures var effects := EffectsOf(s, CountingRules(s, Some(t)));
            && (Suppress in effects <==> AnyMet(s, t, SUPPRESSING))
            && (Downgrade in effects <==> AnyMet(s, t, DOWNGRADING))
            && (AllowWithWarning in effects <==> IsLimited(s) || MetricMet(s, t, LiquidityWeakening))
            && Pause !in effects && Allow !in effects
  {
    AvailableEffects(s, t);
    EffectPresent(s, t, Suppress);
    EffectPresent(s, t, Downgrade);
    EffectPresent(s, t, AllowWithWarning);
    CodesSplit(s, t);
    forall code | code in GUARDIAN_CODES
      ensures EffectFor(code) == Suppress <==> code in SUPPRESSING
      ensures EffectFor(code) == Downgrade <==> code in DOWNGRADING
      ensures EffectFor(code) == AllowWithWarning <==> code == LiquidityWeakening
    {
      CodesByEffect(code);
    }
    hide CountingRules, MetricMet, EffectFor, SeverityFor, SuppressionMet, Map;
  }

  lemma WorstEffect(effects: seq<Effect>)
    requires Pause !in effects && Allow !in effects
    ensures MaxEffect(effects)
            == if Suppress in effects then Suppress else if Downgrade in effects then Downgrade
               else if AllowWithWarning in effects then AllowWithWarning else Allow
  {
  }

  /** Exactly which effect: by what can be relied on, then by the worst code that is met. */
  lemma EffectExactly(s: Situation, t: Thresholds, facts: map<MetricCode, string>)
    ensures var e := Decide(s, Some(t), facts).effect;
            e == if IsUnavailable(s) then Pause
                 else if AnyMet(s, t, SUPPRESSING) then Suppress
                 else if AnyMet(s, t, DOWNGRADING) then Downgrade
                 else if IsLimited(s) || MetricMet(s, t, LiquidityWeakening) then AllowWithWarning
                 else Allow
  {
    if IsUnavailable(s) {
      UnavailablePauses(s, t, facts);
    } else {
      EffectsExactly(s, t);
      hide CountingRules, IsUnavailable, MetricMet, EffectsOf, FindingsOf, MaxEffect, MaxSeverity, AnyMet;
      WorstEffect(EffectsOf(s, CountingRules(s, Some(t))));
    }
  }

  /** A finding of a code that is met: its tag, its severity and the fact it rests on. */
  function MetFinding(code: MetricCode, facts: map<MetricCode, string>): Finding {
    Finding(TagFor(code), SeverityFor(code), ThresholdMet(TagFor(code)),
            if code in facts then Some(facts[code]) else None)
  }

  /** Exactly which findings: one on the quality unless it is good, and one for each code that is met. */
  lemma FindingsExactly(s: Situation, t: Thresholds, facts: map<MetricCode, string>, f: Finding)
    ensures f in Decide(s, Some(t), facts).findings <==>
            if IsUnavailable(s) then
              f == Finding(DataLimitation, Critical,
                           if MissingFacts(s.metrics) then FactsMissing else QualityRequiresPause, None)
            else
              || (IsLimited(s) && f == Finding(DataLimitation, Warning, QualityLimited, None))
              || exists code <- GUARDIAN_CODES :: MetricMet(s, t, code) && f == MetFinding(code, facts)
  {
    if !IsUnavailable(s) {
      CountingCodes(s, t);
      hide CountingRules, IsUnavailable, MetricMet, SeverityFor, TagFor, MaxEffect, MaxSeverity, EffectFor;
      var rules := CountingRules(s, Some(t));
      var finding := r => FindingOf(facts, r);
      forall code | code in GUARDIAN_CODES && MetricMet(s, t, code)
        ensures MetFinding(code, facts) in Map(finding, rules)
      {
        var r :| r in rules && r.code == code;
        MappedMember(finding, rules, r);
      }
      if f in Map(finding, rules) { var r := MappedFrom(finding, rules, f); }
    }
  }

  /** Exactly which severity: that of the worst finding. */
  lemma SeverityExactly(s: Situation, t: Thresholds, facts: map<MetricCode, string>)
    ensures var severity := Decide(s, Some(t), facts).severity;
            severity == if IsUnavailable(s) || AnyMet(s, t, SUPPRESSING) then Critical
                        else if AnyMet(s, t, HIGH_RISKS) then High
                        else if IsLimited(s) || AnyMet(s, t, {LiquidityWeakening, EarlySignalFailure}) then Warning
                        else NoSeverity
  {
    if IsUnavailable(s) {
      UnavailablePauses(s, t, facts);
    } else {
      ReliableFindings(s, t, facts);
      hide CountingRules, IsUnavailable, FindingsOf, EffectsOf, MaxEffect, MaxSeverity, FindingsAre, AnyMet, HasSeverity;
      SeveritiesExactly(s, t, facts, Decide(s, Some(t), facts).findings);
      WorstSeverity(Decide(s, Some(t), facts).findings);
    }
  }

  /** The findings of data that can be relied on. */
  predicate Reported(s: Situation, t: Thresholds, facts: map<MetricCode, string>, f: Finding) {
    || (IsLimited(s) && f == Finding(DataLimitation, Warning, QualityLimited, None))
    || exists code <- GUARDIAN_CODES :: MetricMet(s, t, code) && f == MetFinding(code, facts)
  }

  ghost predicate FindingsAre(s: Situation, t: Thresholds, facts: map<MetricCode, string>, findings: seq<Finding>) {
    forall f :: f in findings <==> Reported(s, t, facts, f)
  }

  lemma ReliableFindings(s: Situation, t: Thresholds, facts: map<MetricCode, string>)
    requires !IsUnavailable(s)
    ensures FindingsAre(s, t, facts, Decide(s, Some(t), facts).findings)
  {
    hide Decide, IsUnavailable, MetFinding, MetricMet;
    forall f ensures f in Decide(s, Some(t), facts).findings <==> Reported(s, t, facts, f) {
      FindingsExactly(s, t, facts, f);
    }
  }

  predicate HasSeverity(findings: seq<Finding>, severity: Severity) { exists f <- findings :: f.severity == severity }

  lemma CodeReported(s: Situation, t: Thresholds, facts: map<MetricCode, string>, findings: seq<Finding>, code: MetricCode)
    requires FindingsAre(s, t, facts, findings) && code in GUARDIAN_CODES && MetricMet(s, t, code)
    ensures HasSeverity(findings, SeverityFor(code))
  {
    hide MetricMet, SeverityFor, TagFor;
    assert MetFinding(code, facts) in findings;
  }

  /** The severities there are to choose the worst of. */
  lemma SeveritiesExactly(s: Situation, t: Thresholds, facts: map<MetricCode, string>, findings: seq<Finding>)
    requires FindingsAre(s, t, facts, findings)
    ensures HasSeverity(findings, Critical) <==> AnyMet(s, t, SUPPRESSING)
    ensures HasSeverity(findings, High) <==> AnyMet(s, t, HIGH_RISKS)
    ensures HasSeverity(findings, Warning)
            <==> IsLimited(s) || AnyMet(s, t, {LiquidityWeakening, EarlySignalFailure})
    ensures !HasSeverity(findings, Info) && !HasSeverity(findings, NoSeverity)
  {
    CodesSplit(s, t);
    forall code | code in GUARDIAN_CODES
      ensures SeverityFor(code) == Critical <==> code in SUPPRESSING
      ensures SeverityFor(code) == High <==> code in HIGH_RISKS
      ensures SeverityFor(code) == Warning <==> code in {LiquidityWeakening, EarlySignalFailure}
      ensures MetricMet(s, t, code) ==> HasSeverity(findings, SeverityFor(code))
    {
      CodesByEffect(code);
      if MetricMet(s, t, code) { CodeReported(s, t, facts, findings, code); }
    }
    hide MetricMet, SeverityFor, TagFor, EffectFor;
    if IsLimited(s) { assert Finding(DataLimitation, Warning, QualityLimited, None) in findings; }
  }

  lemma WorstSeverity(findings: seq<Finding>)
    requires !HasSeverity(findings, Info) && !HasSeverity(findings, NoSeverity)
    ensures MaxSeverity(findings)
            == if HasSeverity(findings, Critical) then Critical else if HasSeverity(findings, High) then High
               else if HasSeverity(findings, Warning) then Warning else NoSeverity
  {
    if findings != [] { assert HasSeverity(findings, findings[0].severity); }
  }

  function HealthRank(h: Health): nat {
    match h case Healthy => 0 case Degraded => 1 case Unhealthy => 2 case UnknownHealth => 2
  }

  function FitnessRank(f: Fitness): nat {
    match f case Fit => 0 case FitWithLimitations => 1 case Unfit => 2 case UnknownFitness => 2
  }

  /** y is at least as risky: metrics only higher or gone, thresholds lower, quality worse. */
  ghost predicate Riskier(x: Situation, tx: Thresholds, y: Situation, ty: Thresholds) {
    && (y.availability == Available ==> x.availability == Available)
    && HealthRank(x.health) <= HealthRank(y.health)
    && FitnessRank(x.fitness) <= FitnessRank(y.fitness)
    && (forall code <- GUARDIAN_CODES :: code in y.metrics ==>
          code in x.metrics && x.metrics[code] <= y.metrics[code])
    && (forall code <- GUARDIAN_CODES :: code in tx && code in ty ==> ty[code] <= tx[code])
  }

  lemma RiskierMatches(x: Situation, tx: Thresholds, y: Situation, ty: Thresholds, r: Rule)
    requires Riskier(x, tx, y, ty) && !IsUnavailable(y)
    requires r in CountingRules(x, Some(tx))
    ensures r in CountingRules(y, Some(ty))
  {
    hide Rules;
    CountingExactly(x, tx, r);
    RuleFacts(r);
    CountingExactly(y, ty, r);
  }

  lemma RiskierQuality(x: Situation, tx: Thresholds, y: Situation, ty: Thresholds)
    requires Riskier(x, tx, y, ty) && !IsUnavailable(y)
    ensures !IsUnavailable(x) && (IsLimited(x) ==> IsLimited(y))
    ensures QualityEffects(x) != [] ==> QualityEffects(x) == QualityEffects(y)
    ensures QualityFindings(x) != [] ==> QualityFindings(x) == QualityFindings(y)
  {
  }

  lemma EffectsGrow(a: seq<Effect>, b: seq<Effect>)
    requires forall e <- a :: exists f <- b :: EffectRank(e) <= EffectRank(f)
    ensures EffectRank(MaxEffect(a)) <= EffectRank(MaxEffect(b))
  {
  }

  lemma SeveritiesGrow(a: seq<Finding>, b: seq<Finding>)
    requires forall e <- a :: exists f <- b :: SeverityRank(e.severity) <= SeverityRank(f.severity)
    ensures SeverityRank(MaxSeverity(a)) <= SeverityRank(MaxSeverity(b))
  {
  }

  lemma EffectMonotone(x: Situation, tx: Thresholds, y: Situation, ty: Thresholds)
    requires Riskier(x, tx, y, ty) && !IsUnavailable(y)
    ensures var rx, ry := CountingRules(x, Some(tx)), CountingRules(y, Some(ty));
            EffectRank(MaxEffect(EffectsOf(x, rx))) <= EffectRank(MaxEffect(EffectsOf(y, ry)))
  {
    hide CountingRules, QualityEffects, Riskier, IsUnavailable;
    var rx, ry := CountingRules(x, Some(tx)), CountingRules(y, Some(ty));
    RiskierQuality(x, tx, y, ty);
    forall e | e in EffectsOf(x, rx) ensures e in EffectsOf(y, ry) {
      if e in Map(EffectOf, rx) {
        var r := MappedFrom(EffectOf, rx, e);
        RiskierMatches(x, tx, y, ty, r);
        MappedMember(EffectOf, ry, r);
      }
    }
    EffectsGrow(EffectsOf(x, rx), EffectsOf(y, ry));
  }

  lemma SeverityMonotone(
    x: Situation, tx: Thresholds, fx: map<MetricCode, string>,
    y: Situation, ty: Thresholds, fy: map<MetricCode, string>)
    requires Riskier(x, tx, y, ty) && !IsUnavailable(y)
    ensures var rx, ry := CountingRules(x, Some(tx)), CountingRules(y, Some(ty));
            SeverityRank(MaxSeverity(FindingsOf(x, rx, fx))) <= SeverityRank(MaxSeverity(FindingsOf(y, ry, fy)))
  {
    hide CountingRules, QualityFindings, Riskier, IsUnavailable;
    var rx, ry := CountingRules(x, Some(tx)), CountingRules(y, Some(ty));
    RiskierQuality(x, tx, y, ty);
    var a, b := FindingsOf(x, rx, fx), FindingsOf(y, ry, fy);
    forall e | e in a ensures exists f <- b :: SeverityRank(e.severity) <= SeverityRank(f.severity) {
      if e in Map(r => FindingOf(fx, r), rx) {
        var r := MappedFrom(r => FindingOf(fx, r), rx, e);
        RiskierMatches(x, tx, y, ty, r);
        MappedMember(r => FindingOf(fy, r), ry, r);
        assert FindingOf(fy, r) in b;
      } else {
        assert e in b;
      }
    }
    SeveritiesGrow(a, b);
  }

  /**
   * Raising a metric, lowering a threshold, losing a metric or worsening quality never lowers
   * the effect or the severity.
   */
  lemma DecisionMonotone(
    x: Situation, tx: Thresholds, fx: map<MetricCode, string>,
    y: Situation, ty: Thresholds, fy: map<MetricCode, string>)
    requires Riskier(x, tx, y, ty)
    ensures var dx, dy := Decide(x, Some(tx), fx), Decide(y, Some(ty), fy);
            && EffectRank(dx.effect) <= EffectRank(dy.effect)
            && SeverityRank(dx.severity) <= SeverityRank(dy.severity)
            && (dx.blocking ==> dy.blocking)
  {
    hide Riskier, Rules, CountingRules, IsUnavailable, EffectsOf, FindingsOf, MaxEffect, MaxSeverity;
    if IsUnavailable(y) {
      UnavailablePauses(y, ty, fy);
    } else {
      EffectMonotone(x, tx, y, ty);
      SeverityMonotone(x, tx, fx, y, ty, fy);
    }
  }
}
