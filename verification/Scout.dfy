/** The Scout: how many objective opportunities are met, and whether the Guardian suppresses them. */
module Scout {
  import opened Wrappers
  import opened Sequences
  import opened Domain
  import opened Guardian

  datatype ScoutStatus = Quiet | Observing | Active

  datatype Strength = Low | Medium | Strong

  /** A met opportunity; each Scout metric has its own tag. */
  datatype Opportunity = Opportunity(code: MetricCode, fact: string)

  datatype ScoutDecision = ScoutDecision(
    status: ScoutStatus, strength: Strength, suppressed: bool, opportunities: seq<Opportunity>)

  function ScoutRules(): seq<MetricCode> {
    [EarlyActivity, HealthyBreadth, RelativeStrength, TurnoverConfirmation,
     EtfConfirmation, StyleSupport, LowCrowding, ContinuityStrengthening]
  }

  predicate OpportunityMet(metrics: map<MetricCode, int>, thresholds: Thresholds, code: MetricCode) {
    code in metrics && code in thresholds && metrics[code] >= thresholds[code]
  }

  function MatchesBefore(metrics: map<MetricCode, int>, thresholds: Thresholds, i: nat): seq<MetricCode>
    requires i <= |ScoutRules()|
  {
    Filter(code => OpportunityMet(metrics, thresholds, code), ScoutRules()[..i])
  }

  function ScoutMatches(metrics: map<MetricCode, int>, thresholds: Thresholds): seq<MetricCode> {
    MatchesBefore(metrics, thresholds, |ScoutRules()|)
  }

  function StatusOf(count: nat): ScoutStatus {
    if count == 0 then Quiet else if count < 3 then Observing else Active
  }

  function StrengthOf(count: nat): Strength {
    if count < 3 then Low else if count < 6 then Medium else Strong
  }

  function OpportunityOf(facts: map<MetricCode, string>, code: MetricCode): Opportunity {
    Opportunity(code, if code in facts then facts[code] else "")
  }

  function OpportunitiesOf(facts: map<MetricCode, string>, codes: seq<MetricCode>): (r: seq<Opportunity>)
    ensures |r| == |codes|
  {
    Map(code => OpportunityOf(facts, code), codes)
  }

  function DecideScout(
    metrics: map<MetricCode, int>, facts: map<MetricCode, string>, thresholds: Thresholds, effect: Effect)
    : ScoutDecision
  {
    var opportunities := OpportunitiesOf(facts, ScoutMatches(metrics, thresholds));
    ScoutDecision(StatusOf(|opportunities|), StrengthOf(|opportunities|), Blocks(effect), opportunities)
  }

  lemma OpportunitiesGrow(facts: map<MetricCode, string>, codes: seq<MetricCode>, code: MetricCode)
    ensures OpportunitiesOf(facts, codes + [code]) == OpportunitiesOf(facts, codes) + [OpportunityOf(facts, code)]
  {
    hide OpportunityOf;
    MapConcat(code => OpportunityOf(facts, code), codes, [code]);
  }

  lemma NothingMatchedYet(
    metrics: map<MetricCode, int>, facts: map<MetricCode, string>, thresholds: Thresholds)
    ensures MatchesBefore(metrics, thresholds, 0) == [] && OpportunitiesOf(facts, []) == []
  {
  }

  lemma MatchesGrow(metrics: map<MetricCode, int>, thresholds: Thresholds, i: nat)
    requires i < |ScoutRules()|
    ensures MatchesBefore(metrics, thresholds, i + 1)
            == MatchesBefore(metrics, thresholds, i)
               + (if OpportunityMet(metrics, thresholds, ScoutRules()[i]) then [ScoutRules()[i]] else [])
  {
    hide ScoutRules, OpportunityMet;
    assert ScoutRules()[..i + 1] == ScoutRules()[..i] + [ScoutRules()[i]];
    FilterSnoc(code => OpportunityMet(metrics, thresholds, code), ScoutRules()[..i], ScoutRules()[i]);
  }

  /** The service's loop over the rules. */
  method EvaluateScout(
    metrics: map<MetricCode, int>, facts: map<MetricCode, string>, thresholds: Thresholds, effect: Effect)
    returns (d: ScoutDecision)
    ensures d == DecideScout(metrics, facts, thresholds, effect)
  {
    hide ScoutRules, OpportunityMet, OpportunityOf, OpportunitiesOf, MatchesBefore, Blocks;
    var findings: seq<Opportunity> := [];
    ghost var counted: seq<MetricCode> := [];
    NothingMatchedYet(metrics, facts, thresholds);
    for i := 0 to |ScoutRules()|
      invariant counted == MatchesBefore(metrics, thresholds, i)
      invariant findings == OpportunitiesOf(facts, counted)
    {
      var code := ScoutRules()[i];
      MatchesGrow(metrics, thresholds, i);
      if OpportunityMet(metrics, thresholds, code) {
        OpportunitiesGrow(facts, counted, code);
        findings := findings + [OpportunityOf(facts, code)];
        counted := counted + [code];
      }
    }
    var count := |findings|;
    d := ScoutDecision(StatusOf(count), StrengthOf(count), Blocks(effect), findings);
  }

  // ---- what the status means

  lemma {:induction false} DistinctCount<T>(keep: T -> bool, s: seq<T>, kept: set<T>)
    requires forall i, j :: 0 <= i < j < |s| ==> s[i] != s[j]
    requires forall x :: x in kept <==> x in s && keep(x)
    ensures |kept| == |Filter(keep, s)|
  {
    if s == [] {
      assert kept == {};
    } else {
      DistinctCount(keep, s[1..], kept - {s[0]});
    }
  }

  lemma RulesAreTheScoutCodes()
    ensures forall i, j :: 0 <= i < j < |ScoutRules()| ==> ScoutRules()[i] != ScoutRules()[j]
    ensures forall code :: code in ScoutRules() <==> code in SCOUT_CODES
  {
  }

  /** The Scout metrics that meet their thresholds. */
  ghost function MetCodes(metrics: map<MetricCode, int>, thresholds: Thresholds): set<MetricCode> {
    set code | code in SCOUT_CODES && OpportunityMet(metrics, thresholds, code)
  }

  lemma MatchCount(metrics: map<MetricCode, int>, thresholds: Thresholds)
    ensures |ScoutMatches(metrics, thresholds)| == |MetCodes(metrics, thresholds)|
  {
    hide ScoutRules, OpportunityMet, Filter;
    RulesAreTheScoutCodes();
    assert ScoutRules()[..|ScoutRules()|] == ScoutRules();
    DistinctCount(code => OpportunityMet(metrics, thresholds, code), ScoutRules(), MetCodes(metrics, thresholds));
  }

  /** The status and the strength count the different Scout metrics that meet their thresholds. */
  lemma StatusExactly(
    metrics: map<MetricCode, int>, facts: map<MetricCode, string>, thresholds: Thresholds, effect: Effect)
    ensures var d, n := DecideScout(metrics, facts, thresholds, effect), |MetCodes(metrics, thresholds)|;
            && |d.opportunities| == n
            && (d.status == Quiet <==> n == 0) && (d.status == Active <==> n >= 3)
            && (d.strength == Low <==> n < 3) && (d.strength == Strong <==> n >= 6)
            && (d.suppressed <==> effect == Suppress || effect == Pause)
  {
    hide ScoutMatches, MetCodes, OpportunityOf;
    MatchCount(metrics, thresholds);
  }

  /** The opportunities are exactly the Scout metrics that reach their thresholds, each with the fact it rests on. */
  lemma OpportunitiesExactly(
    metrics: map<MetricCode, int>, facts: map<MetricCode, string>, thresholds: Thresholds, effect: Effect,
    o: Opportunity)
    ensures o in DecideScout(metrics, facts, thresholds, effect).opportunities
            <==> && o.code in SCOUT_CODES && o.code in metrics && o.code in thresholds
                 && metrics[o.code] >= thresholds[o.code]
                 && o.fact == (if o.code in facts then facts[o.code] else "")
  {
    RulesAreTheScoutCodes();
    hide ScoutRules;
    var met, opportunity := code => OpportunityMet(metrics, thresholds, code), code => OpportunityOf(facts, code);
    assert ScoutRules()[..|ScoutRules()|] == ScoutRules();
    FilterMembers(met, ScoutRules());
    var codes := ScoutMatches(metrics, thresholds);
    hide Filter;
    if o in Map(opportunity, codes) {
      var code := MappedFrom(opportunity, codes, o);
    }
    if o.code in codes { MappedMember(opportunity, codes, o.code); }
  }
}
