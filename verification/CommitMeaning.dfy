/** What the rows of a commit say, and when a request is accepted, in terms of requests and facts alone. */
module CommitMeaning {
  import opened Wrappers
  import opened Sequences
  import opened Domain
  import opened Lifecycles
  import opened CommitTables
  import opened CommitReplay
  import opened CommitHistory
  import opened EventHistory
  import opened Protection
  import opened AnalysisCommit
  import N = Notifications
  import G = Guardian
  import S = Scout

  // ---- the Guardian and Scout rows

  /** The last fact of the code reaches its threshold, and this is its identifier. */
  ghost predicate MeetsBy(x: Input, code: MetricCode, uid: string) {
    exists i :: 0 <= i < |x.facts| && IsLastOf(x.facts, i, code) && x.facts[i].uid == uid
                && code in x.thresholds && x.facts[i].value >= x.thresholds[code]
  }

  predicate LimitedData(x: Input) { x.snapshot.health == Degraded || x.snapshot.fitness == FitWithLimitations }

  ghost predicate Suppressing(x: Input) {
    FactMeets(x, BreadthCollapse) || FactMeets(x, StampedeRisk) || FactMeets(x, T1Chasing)
  }

  ghost predicate HighRisk(x: Input) {
    || FactMeets(x, RiseRate) || FactMeets(x, HeadConcentration) || FactMeets(x, InternalDivergence)
    || FactMeets(x, Crowding) || FactMeets(x, CoreWeakening)
  }

  ghost function EffectOn(x: Input): G.Effect {
    if Unreliable(x) then G.Pause
    else if Suppressing(x) then G.Suppress
    else if HighRisk(x) || FactMeets(x, EarlySignalFailure) then G.Downgrade
    else if LimitedData(x) || FactMeets(x, LiquidityWeakening) then G.AllowWithWarning
    else G.Allow
  }

  ghost function SeverityOn(x: Input): G.Severity {
    if Unreliable(x) || Suppressing(x) then G.Critical
    else if HighRisk(x) then G.High
    else if LimitedData(x) || FactMeets(x, LiquidityWeakening) || FactMeets(x, EarlySignalFailure) then G.Warning
    else G.NoSeverity
  }

  predicate LacksFact(x: Input) { exists code <- GUARDIAN_CODES :: forall f <- x.facts :: f.code != code }

  /** What is found: the state of the data unless it is good, and every risk that reaches its threshold. */
  ghost predicate Found(x: Input, f: G.Finding) {
    if Unreliable(x) then
      f == G.Finding(G.DataLimitation, G.Critical, if LacksFact(x) then G.FactsMissing else G.QualityRequiresPause, None)
    else
      || (LimitedData(x) && f == G.Finding(G.DataLimitation, G.Warning, G.QualityLimited, None))
      || RiskFound(x, f)
  }

  ghost predicate RiskFound(x: Input, f: G.Finding) {
    exists code, uid ::
      code in GUARDIAN_CODES && MeetsBy(x, code, uid)
      && f == G.Finding(G.TagFor(code), G.SeverityFor(code), G.ThresholdMet(G.TagFor(code)), Some(uid))
  }

  lemma MeetsByExactly(x: Input, code: MetricCode)
    requires code in ALL_CODES
    ensures forall uid :: MeetsBy(x, code, uid)
              <==> FactMeets(x, code) && code in UidsOf(x.facts) && UidsOf(x.facts)[code] == uid
    ensures FactMeets(x, code) ==> code in UidsOf(x.facts)
  {
    UidIsLast(x.facts, code);
    hide IsLastOf, UidsOf;
  }

  lemma {:induction false} UidIsLast(facts: seq<Fact>, code: MetricCode)
    ensures code in UidsOf(facts) <==> exists i :: 0 <= i < |facts| && IsLastOf(facts, i, code)
    ensures forall i :: 0 <= i < |facts| && IsLastOf(facts, i, code) ==>
              code in UidsOf(facts) && UidsOf(facts)[code] == facts[i].uid
  {
    if facts != [] {
      var front := facts[..|facts| - 1];
      UidIsLast(front, code);
      if facts[|facts| - 1].code == code {
        assert IsLastOf(facts, |facts| - 1, code);
      } else {
        forall i | 0 <= i < |front| ensures IsLastOf(facts, i, code) <==> IsLastOf(front, i, code) {
          SameLast(facts, i, code);
        }
        hide IsLastOf;
        assert !IsLastOf(facts, |facts| - 1, code) by { NotLast(facts, code); }
      }
    }
  }

  lemma SameLast(facts: seq<Fact>, i: nat, code: MetricCode)
    requires i < |facts| - 1 && facts[|facts| - 1].code != code
    ensures IsLastOf(facts, i, code) <==> IsLastOf(facts[..|facts| - 1], i, code)
  {
    var front := facts[..|facts| - 1];
    assert forall j | 0 <= j < |front| :: facts[j] == front[j];
  }

  lemma NotLast(facts: seq<Fact>, code: MetricCode)
    requires facts != [] && facts[|facts| - 1].code != code
    ensures !IsLastOf(facts, |facts| - 1, code)
  {
  }

  lemma AnySpelled(s: G.Situation, t: G.Thresholds)
    ensures G.AnyMet(s, t, G.SUPPRESSING)
            <==> G.MetricMet(s, t, BreadthCollapse) || G.MetricMet(s, t, StampedeRisk) || G.MetricMet(s, t, T1Chasing)
    ensures G.AnyMet(s, t, G.HIGH_RISKS)
            <==> || G.MetricMet(s, t, RiseRate) || G.MetricMet(s, t, HeadConcentration)
                 || G.MetricMet(s, t, InternalDivergence) || G.MetricMet(s, t, Crowding) || G.MetricMet(s, t, CoreWeakening)
    ensures G.AnyMet(s, t, G.DOWNGRADING)
            <==> G.AnyMet(s, t, G.HIGH_RISKS) || G.MetricMet(s, t, EarlySignalFailure)
    ensures G.AnyMet(s, t, {LiquidityWeakening, EarlySignalFailure})
            <==> G.MetricMet(s, t, LiquidityWeakening) || G.MetricMet(s, t, EarlySignalFailure)
  {
    hide G.MetricMet;
  }

  lemma DataKinds(x: Input)
    ensures var s := SituationOf(x);
            && (G.IsUnavailable(s) <==> Unreliable(x)) && (G.IsLimited(s) <==> LimitedData(x))
            && (G.MissingFacts(s.metrics) <==> LacksFact(x))
  {
    UnreliableExactly(x);
    forall code ensures code in ValuesOf(x.facts) <==> exists f <- x.facts :: f.code == code {
      ValueMeansFact(x.facts, code);
    }
    hide G.IsUnavailable, Unreliable, ValuesOf;
  }

  lemma RiskKinds(x: Input)
    ensures var s, t := SituationOf(x), x.thresholds;
            && (G.AnyMet(s, t, G.SUPPRESSING) <==> Suppressing(x))
            && (G.AnyMet(s, t, G.HIGH_RISKS) <==> HighRisk(x))
            && (G.AnyMet(s, t, G.DOWNGRADING) <==> HighRisk(x) || FactMeets(x, EarlySignalFailure))
            && (G.MetricMet(s, t, LiquidityWeakening) <==> FactMeets(x, LiquidityWeakening))
            && (G.AnyMet(s, t, {LiquidityWeakening, EarlySignalFailure})
                <==> FactMeets(x, LiquidityWeakening) || FactMeets(x, EarlySignalFailure))
  {
    AnySpelled(SituationOf(x), x.thresholds);
    forall code | code in ALL_CODES ensures FactMeets(x, code) <==> G.MetricMet(SituationOf(x), x.thresholds, code) {
      FactMeetsExactly(x, code);
    }
    hide FactMeets, G.MetricMet, G.AnyMet, SituationOf;
  }

  /** The effect and the severity follow from the facts that reach their thresholds. */
  lemma DecisionExactly(x: Input)
    ensures RiskOf(x).effect == EffectOn(x) && RiskOf(x).severity == SeverityOn(x)
    ensures RiskOf(x).blocking <==> Unreliable(x) || Suppressing(x)
  {
    var s := SituationOf(x);
    DataKinds(x);
    RiskKinds(x);
    G.EffectExactly(s, x.thresholds, UidsOf(x.facts));
    G.SeverityExactly(s, x.thresholds, UidsOf(x.facts));
    assert RiskOf(x).blocking == G.Blocks(RiskOf(x).effect);
    hide G.Decide, G.IsUnavailable, G.IsLimited, G.AnyMet, G.MetricMet, Unreliable, Suppressing, HighRisk, FactMeets,
         LimitedData;
  }

  lemma MetIsFound(x: Input, f: G.Finding)
    ensures (exists code <- GUARDIAN_CODES ::
               G.MetricMet(SituationOf(x), x.thresholds, code) && f == G.MetFinding(code, UidsOf(x.facts)))
            <==> RiskFound(x, f)
  {
    var s, uids := SituationOf(x), UidsOf(x.facts);
    forall code | code in GUARDIAN_CODES
      ensures forall uid :: MeetsBy(x, code, uid)
                <==> G.MetricMet(s, x.thresholds, code) && code in uids && uids[code] == uid
      ensures G.MetricMet(s, x.thresholds, code) ==> code in uids && MeetsBy(x, code, uids[code])
    {
      MeetsByExactly(x, code);
      FactMeetsExactly(x, code);
    }
    hide G.MetricMet, FactMeets, MeetsBy, UidsOf, G.TagFor, G.SeverityFor, SituationOf;
  }

  /** The findings are exactly those. */
  lemma FindingsFound(x: Input, f: G.Finding)
    ensures f in RiskOf(x).findings <==> Found(x, f)
  {
    DataKinds(x);
    MetIsFound(x, f);
    G.FindingsExactly(SituationOf(x), x.thresholds, UidsOf(x.facts), f);
    hide G.Decide, G.IsUnavailable, G.IsLimited, G.MetricMet, Unreliable, LimitedData, RiskFound, LacksFact, UidsOf,
         G.MissingFacts, G.MetFinding, SituationOf;
  }

  /** An opportunity is a Scout fact that reaches its threshold. */
  lemma OpportunitiesFound(x: Input, o: S.Opportunity)
    ensures o in OpportunityOf(x).opportunities <==> o.code in SCOUT_CODES && MeetsBy(x, o.code, o.fact)
  {
    S.OpportunitiesExactly(ValuesOf(x.facts), UidsOf(x.facts), x.thresholds, RiskOf(x).effect, o);
    if o.code in SCOUT_CODES {
      MeetsByExactly(x, o.code);
      FactMeetsExactly(x, o.code);
    }
    hide S.DecideScout, RiskOf, ValuesOf, UidsOf, MeetsBy, FactMeets;
  }

  // ---- the rows of a commit

  ghost predicate GuardianSays(row: GuardianRow, x: Input, r: CommitResult) {
    && row.uid == r.guardianUid && row.stateUid == r.stateUid
    && row.subject == x.snapshot.subject && row.snapshotUid == x.request.snapshotUid && row.createdAt == x.snapshot.asOf
    && row.effect == EffectOn(x) && row.severity == SeverityOn(x)
    && (row.blocking <==> Unreliable(x) || Suppressing(x))
    && forall f :: f in row.risks <==> Found(x, f)
  }

  /** How many different Scout metrics reach their thresholds. */
  ghost function ScoutCount(x: Input): nat { |set code | code in SCOUT_CODES && FactMeets(x, code)| }

  ghost predicate ScoutSays(row: ScoutRow, x: Input, r: CommitResult) {
    && row.uid == r.scoutUid && row.guardianUid == r.guardianUid && row.stateUid == r.stateUid
    && row.subject == x.snapshot.subject && row.snapshotUid == x.request.snapshotUid && row.createdAt == x.snapshot.asOf
    && row.effect == EffectOn(x) && (row.suppressed <==> Unreliable(x) || Suppressing(x))
    && row.status == (if ScoutCount(x) == 0 then S.Quiet else if ScoutCount(x) < 3 then S.Observing else S.Active)
    && row.strength == (if ScoutCount(x) < 3 then S.Low else if ScoutCount(x) < 6 then S.Medium else S.Strong)
    && |row.opportunities| == ScoutCount(x)
    && forall o :: o in row.opportunities <==> o.code in SCOUT_CODES && MeetsBy(x, o.code, o.fact)
  }

  predicate EvaluationSays(row: StateEvaluation, x: Input, r: CommitResult) {
    && row.uid == r.stateUid && row.snapshotUid == x.request.snapshotUid && row.subject == x.snapshot.subject
    && row.availability == x.request.availability && row.lifecycle == x.request.lifecycle
    && row.createdAt == x.snapshot.asOf && |row.facts| == |x.facts|
    && forall k :: 0 <= k < |x.facts| ==> row.facts[k] == x.facts[k].uid
  }

  predicate CommitSays(row: CommitRow, audit: Audit, x: Input, r: CommitResult) {
    && row.uid == r.commitUid && row.snapshotUid == x.request.snapshotUid && row.committedAt == x.snapshot.asOf
    && row.stateUid == r.stateUid && row.guardianUid == r.guardianUid && row.scoutUid == r.scoutUid
    && row.fingerprint == audit.fingerprint == FingerprintOf(x.request)
    && audit.subject == x.snapshot.subject && audit.commitUid == r.commitUid && audit.createdAt == x.snapshot.asOf
    && audit.versions == r.versions && audit.intents == r.intents
  }

  ghost predicate Counted(t: Tables, n: nat) {
    |t.evaluations| == n && |t.guardians| == n && |t.scouts| == n && |t.commits| == n && |t.audits| == n
  }

  /** Row i of each table is that of commit x, which returned r. */
  ghost predicate RecordAt(t: Tables, i: nat, x: Input, r: CommitResult) {
    && i < |t.evaluations| && EvaluationSays(t.evaluations[i], x, r)
    && i < |t.guardians| && GuardianSays(t.guardians[i], x, r)
    && i < |t.scouts| && ScoutSays(t.scouts[i], x, r)
    && i < |t.commits| && i < |t.audits| && CommitSays(t.commits[i], t.audits[i], x, r)
  }

  /** One row for each commit in each table, in their order, and nothing else. */
  ghost predicate Recorded(t: Tables, log: seq<Input>) {
    Counted(t, |log|) && forall i :: 0 <= i < |log| ==> RecordAt(t, i, log[i], ResultAt(log, i))
  }

  ghost predicate SameRecords(a: Tables, b: Tables) {
    && a.evaluations == b.evaluations && a.guardians == b.guardians && a.scouts == b.scouts && a.commits == b.commits
    && a.audits == b.audits
  }

  lemma {:induction false} IntentsLeaveRecords(
      t: Tables, c: Cycle, kind: IntentKind, v: EventVersion, channels: seq<Channel>)
    ensures SameRecords(t, IntentStep(t, c, kind, v, channels))
  {
    if channels != [] { IntentsLeaveRecords(t, c, kind, v, channels[..|channels| - 1]); }
  }

  lemma EventLeavesRecords(t: Tables, c: Cycle, kind: EventKind)
    ensures SameRecords(t, EventStep(t, c, kind))
  {
    hide VersionOf, Desired, IsLive, IntentStep, IntentKindOf, EventUidOf;
    if !Idle(t, c, kind) {
      var t1 := EventRowStep(t, c, kind);
      var key := EventKey(c.subject, kind);
      var v := VersionOf(t1.nextUid, EventUidOf(t, key), Lookup(t.current, key), c, kind);
      IntentsLeaveRecords(
        VersionStep(t1, key, v), c, IntentKindOf(kind, Desired(kind, c.risk, c.opportunity)), v, c.channels);
    }
  }

  /** What one commit adds. */
  ghost predicate AddsRecords(t: Tables, after: Tables, x: Input, r: CommitResult) {
    && after.evaluations == t.evaluations
       + [StateEvaluation(r.stateUid, x.request.snapshotUid, x.snapshot.subject, x.request.availability,
                          x.request.lifecycle, Map(FactUid, x.facts), x.snapshot.asOf)]
    && after.guardians == t.guardians
       + [GuardianRow(r.guardianUid, r.stateUid, x.snapshot.subject, x.request.snapshotUid, RiskOf(x).effect,
                      RiskOf(x).blocking, RiskOf(x).severity, RiskOf(x).findings, x.snapshot.asOf)]
    && after.scouts == t.scouts
       + [ScoutRow(r.scoutUid, r.guardianUid, r.stateUid, x.snapshot.subject, x.request.snapshotUid,
                   OpportunityOf(x).status, OpportunityOf(x).strength, OpportunityOf(x).suppressed,
                   RiskOf(x).effect, OpportunityOf(x).opportunities, x.snapshot.asOf)]
    && after.commits == t.commits
       + [CommitRow(r.commitUid, x.request.snapshotUid, r.stateUid, r.guardianUid, r.scoutUid,
                    FingerprintOf(x.request), x.snapshot.asOf)]
    && |after.audits| == |t.audits| + 1 && after.audits[..|t.audits|] == t.audits
    && CommitSays(after.commits[|t.commits|], after.audits[|t.audits|], x, r)
  }

  lemma AnalysisRecords(t: Tables, x: Input)
    ensures var after, c := AnalysisStep(t, x), CycleOf(t, x);
            && after.evaluations == t.evaluations
               + [StateEvaluation(c.stateUid, x.request.snapshotUid, x.snapshot.subject, x.request.availability,
                                  x.request.lifecycle, Map(FactUid, x.facts), x.snapshot.asOf)]
            && after.guardians == t.guardians
               + [GuardianRow(c.guardianUid, c.stateUid, x.snapshot.subject, x.request.snapshotUid, RiskOf(x).effect,
                              RiskOf(x).blocking, RiskOf(x).severity, RiskOf(x).findings, x.snapshot.asOf)]
            && after.scouts == t.scouts
               + [ScoutRow(c.scoutUid, c.guardianUid, c.stateUid, x.snapshot.subject, x.request.snapshotUid,
                           OpportunityOf(x).status, OpportunityOf(x).strength, OpportunityOf(x).suppressed,
                           RiskOf(x).effect, OpportunityOf(x).opportunities, x.snapshot.asOf)]
            && after.commits == t.commits
               + [CommitRow(c.commitUid, x.request.snapshotUid, c.stateUid, c.guardianUid, c.scoutUid,
                            FingerprintOf(x.request), x.snapshot.asOf)]
            && after.audits == t.audits
  {
    hide RiskOf, OpportunityOf, ChannelsOf, Moves, Previous, NextProjection, FingerprintOf, Map;
  }

  lemma CommitStepRecords(t: Tables, x: Input)
    ensures AddsRecords(t, CommitStep(t, x), x, ResultOfCommit(t, x))
  {
    AnalysisRecords(t, x);
    hide AnalysisStep, CycleOf, EventStep, RiskOf, OpportunityOf, FingerprintOf, Map;
    var c, t0 := CycleOf(t, x), AnalysisStep(t, x);
    EventLeavesRecords(t0, c, GuardianRisk);
    EventLeavesRecords(EventStep(t0, c, GuardianRisk), c, ScoutWatch);
  }

  lemma GuardianRowSays(x: Input, r: CommitResult)
    ensures GuardianSays(
              GuardianRow(r.guardianUid, r.stateUid, x.snapshot.subject, x.request.snapshotUid, RiskOf(x).effect,
                          RiskOf(x).blocking, RiskOf(x).severity, RiskOf(x).findings, x.snapshot.asOf), x, r)
  {
    hide RiskOf, Found, EffectOn, SeverityOn, Unreliable, Suppressing;
    DecisionExactly(x);
    forall f ensures f in RiskOf(x).findings <==> Found(x, f) { FindingsFound(x, f); }
  }

  lemma CountExactly(x: Input)
    ensures var o, n := OpportunityOf(x), ScoutCount(x);
            && |o.opportunities| == n
            && o.status == (if n == 0 then S.Quiet else if n < 3 then S.Observing else S.Active)
            && o.strength == (if n < 3 then S.Low else if n < 6 then S.Medium else S.Strong)
            && (o.suppressed <==> Unreliable(x) || Suppressing(x))
  {
    MetFacts(x);
    S.StatusExactly(ValuesOf(x.facts), UidsOf(x.facts), x.thresholds, RiskOf(x).effect);
    DecisionExactly(x);
    BlocksOn(x);
    hide RiskOf, S.DecideScout, S.MetCodes, ValuesOf, UidsOf, FactMeets, EffectOn, SeverityOn, Unreliable, Suppressing;
  }

  lemma ScoutRowSays(x: Input, r: CommitResult)
    ensures ScoutSays(
              ScoutRow(r.scoutUid, r.guardianUid, r.stateUid, x.snapshot.subject, x.request.snapshotUid,
                       OpportunityOf(x).status, OpportunityOf(x).strength, OpportunityOf(x).suppressed,
                       RiskOf(x).effect, OpportunityOf(x).opportunities, x.snapshot.asOf), x, r)
  {
    hide RiskOf, OpportunityOf, ScoutCount, EffectOn, SeverityOn, MeetsBy, Unreliable, Suppressing;
    DecisionExactly(x);
    CountExactly(x);
    forall o
      ensures o in OpportunityOf(x).opportunities <==> o.code in SCOUT_CODES && MeetsBy(x, o.code, o.fact)
    {
      OpportunitiesFound(x, o);
    }
  }

  lemma BlocksOn(x: Input)
    ensures EffectOn(x) == G.Suppress || EffectOn(x) == G.Pause <==> Unreliable(x) || Suppressing(x)
  {
    hide Unreliable, Suppressing, HighRisk, LimitedData, FactMeets;
  }

  lemma EvaluationIs(x: Input, r: CommitResult)
    ensures EvaluationSays(
              StateEvaluation(r.stateUid, x.request.snapshotUid, x.snapshot.subject, x.request.availability,
                              x.request.lifecycle, Map(FactUid, x.facts), x.snapshot.asOf), x, r)
  {
  }

  /** The rows of earlier commits stay. */
  lemma RecordStays(t: Tables, after: Tables, x: Input, r: CommitResult, i: nat, y: Input, q: CommitResult)
    requires AddsRecords(t, after, x, r) && RecordAt(t, i, y, q)
    ensures RecordAt(after, i, y, q)
  {
    hide GuardianSays, ScoutSays, EvaluationSays, CommitSays, RiskOf, OpportunityOf, FingerprintOf, Map;
    assert after.audits[i] == after.audits[..|t.audits|][i];
  }

  lemma RecordAdded(t: Tables, after: Tables, x: Input, r: CommitResult)
    requires AddsRecords(t, after, x, r) && Counted(t, |t.commits|)
    ensures RecordAt(after, |t.commits|, x, r) && Counted(after, |t.commits| + 1)
  {
    GuardianRowSays(x, r);
    ScoutRowSays(x, r);
    EvaluationIs(x, r);
    hide GuardianSays, ScoutSays, EvaluationSays, CommitSays, RiskOf, OpportunityOf, FingerprintOf, Map;
  }

  lemma SameResult(log: seq<Input>, x: Input, i: nat)
    requires i < |log|
    ensures ResultAt(log + [x], i) == ResultAt(log, i)
  {
    assert (log + [x])[..i] == log[..i];
    hide Replay, ResultOfCommit;
  }

  lemma LastResult(log: seq<Input>, x: Input)
    ensures ResultAt(log + [x], |log|) == ResultOfCommit(Replay(log), x)
  {
    assert (log + [x])[..|log|] == log;
    hide Replay, ResultOfCommit;
  }

  lemma RecordedNext(t: Tables, log: seq<Input>, after: Tables, x: Input, r: CommitResult)
    requires Recorded(t, log) && AddsRecords(t, after, x, r) && r == ResultAt(log + [x], |log|)
    ensures Recorded(after, log + [x])
  {
    hide AddsRecords, RecordAt, ResultAt;
    assert |t.commits| == |log|;
    RecordAdded(t, after, x, r);
    var longer := log + [x];
    forall i | 0 <= i < |longer| ensures RecordAt(after, i, longer[i], ResultAt(longer, i)) {
      if i < |log| {
        SameResult(log, x, i);
        RecordStays(t, after, x, r, i, log[i], ResultAt(log, i));
      }
    }
  }

  lemma NothingRecorded()
    ensures Recorded(Replay([]), [])
  {
  }

  /**
   * In every run each commit has left one row in each table, with the identifiers it returned, and the
   * Guardian and Scout rows say what follows from the facts and thresholds of that commit alone.
   */
  lemma {:induction false} RecordsOfRun(log: seq<Input>)
    ensures Recorded(Replay(log), log)
  {
    hide *;
    if log == [] {
      NothingRecorded();
    } else {
      var before, x := log[..|log| - 1], log[|log| - 1];
      RecordsOfRun(before);
      CommitStepRecords(Replay(before), x);
      assert before + [x] == log;
      ReplaySnoc(before, x);
      LastResult(before, x);
      RecordedNext(Replay(before), before, Replay(log), x, ResultOfCommit(Replay(before), x));
    }
  }

  // ---- when a request is accepted

  /** The moves of a lifecycle that are legal. */
  const LEGAL_MOVES: set<(Lifecycle, Lifecycle)> := {
    (Observing, Starting), (Starting, Observing), (Starting, Expanding), (Starting, Declining),
    (Expanding, Starting), (Expanding, Accelerating), (Expanding, Lifecycle.Diverging), (Expanding, Declining),
    (Accelerating, Expanding), (Accelerating, Lifecycle.Diverging), (Accelerating, Declining),
    (Lifecycle.Diverging, Expanding), (Lifecycle.Diverging, Declining), (Lifecycle.Diverging, Observing),
    (Declining, Observing), (Declining, Starting), (Declining, Lifecycle.Diverging)}

  lemma LegalExactly(a: Lifecycle, b: Lifecycle)
    ensures Legal(a, b) <==> (a, b) in LEGAL_MOVES
  {
  }

  /** The channels of a commit are those asked for, each once, the application's own first. */
  lemma ChannelsExactly(channels: seq<Channel>)
    ensures var c := ChannelsOf(channels);
            && (forall x :: x in c <==> x in channels && (x == InApp || x == Webhook))
            && |c| <= 2 && (|c| == 2 ==> c == [InApp, Webhook])
  {
  }

  /** Two requests ask for the same commit; how their channels are listed does not matter. */
  predicate SameContent(a: Request, b: Request) {
    && a.snapshotUid == b.snapshotUid && a.availability == b.availability && a.lifecycle == b.lifecycle
    && a.expectedVersion == b.expectedVersion && a.provenance == b.provenance
    && a.guardianMetrics == b.guardianMetrics && a.scoutMetrics == b.scoutMetrics
    && (InApp in a.channels <==> InApp in b.channels) && (Webhook in a.channels <==> Webhook in b.channels)
  }

  lemma FingerprintExactly(a: Request, b: Request)
    ensures FingerprintOf(a) == FingerprintOf(b) <==> SameContent(a, b)
  {
    ChannelsExactly(a.channels);
    ChannelsExactly(b.channels);
    if FingerprintOf(a) == FingerprintOf(b) {
      assert ChannelsOf(a.channels) == ChannelsOf(b.channels);
    }
  }

  predicate ChannelsKnown(r: Request) { r.channels != [] && forall c <- r.channels :: c == InApp || c == Webhook }

  predicate InPpm(metrics: map<MetricCode, int>, codes: set<MetricCode>) {
    forall code <- metrics :: code in codes && 0 <= metrics[code] <= 1_000_000
  }

  predicate Named(r: Request) {
    && r.provenance.Some?
    && (exists c <- r.provenance.value.producerVersion :: !IsSpace(c))
    && (exists c <- r.provenance.value.evidenceSha :: !IsSpace(c))
  }

  /** The rows are one usable fact for each of these metrics, and no other. */
  ghost predicate Backs(rows: seq<FactRow>, metrics: map<MetricCode, int>, codes: set<MetricCode>) {
    && (forall i :: 0 <= i < |rows| ==> Backing(rows[i], metrics, codes))
    && (forall i, j :: 0 <= i < j < |rows| ==> rows[i].fact.code != rows[j].fact.code)
    && forall code <- metrics :: exists i :: 0 <= i < |rows| && rows[i].fact.code == code
  }

  predicate Backing(row: FactRow, metrics: map<MetricCode, int>, codes: set<MetricCode>) {
    && row.fact.code in codes && row.hasValue && row.scale == 0 && row.unit == "PPM" && 0 <= row.fact.value <= 1_000_000
    && row.fact.code in metrics && metrics[row.fact.code] == row.fact.value
  }

  lemma RangeExactly(metrics: map<MetricCode, int>, codes: set<MetricCode>)
    ensures PpmMetrics(metrics, codes) <==> InPpm(metrics, codes)
  {
  }

  lemma NamedExactly(r: Request)
    ensures Traced(r.provenance) <==> Named(r)
  {
    hide IsSpace;
  }

  lemma {:induction false} ValuesPlain(facts: seq<Fact>)
    requires DistinctBy(FactCode, facts)
    ensures forall code :: code in ValuesOf(facts) <==> exists i :: 0 <= i < |facts| && facts[i].code == code
    ensures forall i :: 0 <= i < |facts| ==> facts[i].code in ValuesOf(facts) && ValuesOf(facts)[facts[i].code] == facts[i].value
  {
    forall code ensures code in ValuesOf(facts) <==> exists i :: 0 <= i < |facts| && facts[i].code == code {
      IndexKeys(FactCode, FactValue, facts, code);
      if i :| 0 <= i < |facts| && facts[i].code == code { assert FactCode(facts[i]) == code; }
      if i :| 0 <= i < |facts| && FactCode(facts[i]) == code { assert facts[i].code == code; }
    }
    forall i | 0 <= i < |facts|
      ensures facts[i].code in ValuesOf(facts) && ValuesOf(facts)[facts[i].code] == facts[i].value
    {
      IndexValue(FactCode, FactValue, facts, i);
    }
  }

  lemma FactsApart(rows: seq<FactRow>)
    ensures DistinctBy(FactCode, FactsOf(rows))
            <==> forall i, j :: 0 <= i < j < |rows| ==> rows[i].fact.code != rows[j].fact.code
    ensures |FactsOf(rows)| == |rows| && forall i :: 0 <= i < |rows| ==> FactsOf(rows)[i] == rows[i].fact
  {
    var facts := FactsOf(rows);
    forall i | 0 <= i < |rows| ensures facts[i] == rows[i].fact && FactCode(facts[i]) == rows[i].fact.code {}
  }

  lemma UsableRows(rows: seq<FactRow>, metrics: map<MetricCode, int>, codes: set<MetricCode>)
    ensures FactMetrics(rows, codes) == Some(metrics)
            <==> && (forall i :: 0 <= i < |rows| ==> Usable(rows[i], codes))
                 && DistinctBy(FactCode, FactsOf(rows)) && ValuesOf(FactsOf(rows)) == metrics
  {
    forall i | 0 <= i < |rows| ensures rows[i] in rows {}
    hide Usable, FactsOf, DistinctBy, ValuesOf;
  }

  lemma SameValues(facts: seq<Fact>, metrics: map<MetricCode, int>)
    requires DistinctBy(FactCode, facts)
    ensures ValuesOf(facts) == metrics
            <==> && (forall i :: 0 <= i < |facts| ==> facts[i].code in metrics && metrics[facts[i].code] == facts[i].value)
                 && (forall code <- metrics :: exists i :: 0 <= i < |facts| && facts[i].code == code)
  {
    ValuesPlain(facts);
    hide ValuesOf, DistinctBy;
  }

  /** The execution's rows yield the metrics exactly if they back them. */
  lemma BacksExactly(rows: seq<FactRow>, metrics: map<MetricCode, int>, codes: set<MetricCode>)
    ensures FactMetrics(rows, codes) == Some(metrics) <==> Backs(rows, metrics, codes)
  {
    UsableRows(rows, metrics, codes);
    FactsApart(rows);
    var facts := FactsOf(rows);
    hide FactsOf, FactMetrics, ValuesOf, DistinctBy;
    if DistinctBy(FactCode, facts) {
      SameValues(facts, metrics);
      if Backs(rows, metrics, codes) {
        forall i | 0 <= i < |rows| ensures Usable(rows[i], codes) { assert Backing(rows[i], metrics, codes); }
        forall i | 0 <= i < |facts| ensures facts[i].code in metrics && metrics[facts[i].code] == facts[i].value {
          assert Backing(rows[i], metrics, codes);
        }
        forall code | code in metrics ensures exists i :: 0 <= i < |facts| && facts[i].code == code {
          var i :| 0 <= i < |rows| && rows[i].fact.code == code;
          assert facts[i].code == code;
        }
      }
      if FactMetrics(rows, codes) == Some(metrics) {
        forall i | 0 <= i < |rows| ensures Backing(rows[i], metrics, codes) { assert facts[i] == rows[i].fact; }
        forall code | code in metrics ensures exists i :: 0 <= i < |rows| && rows[i].fact.code == code {
          var i :| 0 <= i < |facts| && facts[i].code == code;
          assert rows[i].fact.code == code;
        }
      }
    }
  }

  predicate Understood(r: Request) {
    (r.availability == Available <==> r.lifecycle.Some?) && r.expectedVersion >= 0 && ChannelsKnown(r)
  }

  predicate SnapshotOfficial(r: Request, w: World) {
    r.snapshotUid in w.snapshots && w.snapshots[r.snapshotUid].sealed && w.snapshots[r.snapshotUid].official
  }

  /** The thresholds are resolved, and the two executions of the snapshot back the metrics of the request. */
  ghost predicate Backed(r: Request, w: World) {
    && w.thresholds.Some? && w.execution.Some?
    && Backs(w.execution.value.guardian, r.guardianMetrics, GUARDIAN_CODES)
    && Backs(w.execution.value.scout, r.scoutMetrics, SCOUT_CODES)
  }

  /** What is wrong with a request before the tables are looked at, if anything. */
  ghost function WrongWith(r: Request, w: World): Option<CommitError> {
    if !Understood(r) then Some(InvalidRequest)
    else if !Named(r) then Some(GateRefused)
    else if !InPpm(r.guardianMetrics, GUARDIAN_CODES) || !InPpm(r.scoutMetrics, SCOUT_CODES) then Some(InvalidRequest)
    else if !w.evidence then Some(GateRefused)
    else if !SnapshotOfficial(r, w) then Some(SnapshotUnusable)
    else if !Backed(r, w) then Some(GateRefused)
    else None
  }

  lemma RefusalExactly(r: Request, w: World)
    ensures Refusal(r, w) == WrongWith(r, w)
  {
    RangeExactly(r.guardianMetrics, GUARDIAN_CODES);
    RangeExactly(r.scoutMetrics, SCOUT_CODES);
    NamedExactly(r);
    if w.execution.Some? {
      BacksExactly(w.execution.value.guardian, r.guardianMetrics, GUARDIAN_CODES);
      BacksExactly(w.execution.value.scout, r.scoutMetrics, SCOUT_CODES);
    }
    assert ChannelsKnown(r) <==> r.channels != [] && !exists c <- r.channels :: c.OtherChannel?;
    hide Traced, Named, PpmMetrics, InPpm, FactMetrics, Backs;
  }

  /** The lifecycle that a subject last had, and whether a move from it is refused. */
  ghost predicate MoveRefused(log: seq<Input>, subject: string, to: Option<Lifecycle>) {
    var last := LastOf(LifecyclesOf(log, subject));
    last.Some? && to.Some? && last != to && (last.value, to.value) !in LEGAL_MOVES
  }

  /** What is wrong with a commit of a snapshot that was not committed yet, if anything. */
  ghost function ConflictWith(log: seq<Input>, x: Input): Option<CommitError> {
    if x.facts == [] then Some(NoFacts)
    else if x.request.expectedVersion != CommitCount(log, x.snapshot.subject) then Some(ProjectionConflict)
    else if MoveRefused(log, x.snapshot.subject, x.request.lifecycle) then Some(IllegalTransition)
    else None
  }

  lemma PreviousExactly(current: Option<StateProjection>, path: seq<Transition>, commits: nat, states: seq<Lifecycle>)
    requires Follows(current, path, commits, states)
    ensures ActualVersion(current) == commits && Previous(current) == LastOf(states)
  {
    hide LegalPath, Map, Collapse;
  }

  lemma FoundAfter(log: seq<Input>, subject: string)
    requires Accepted(log)
    ensures var current := Lookup(Replay(log).projections, subject);
            ActualVersion(current) == CommitCount(log, subject) && Previous(current) == LastOf(LifecyclesOf(log, subject))
  {
    LifecycleOfRun(log, subject);
    hide Follows, Replay, CommitCount, LifecyclesOf, TransitionsOf, ActualVersion, Previous, LastOf, Accepted;
    var t := Replay(log);
    PreviousExactly(Lookup(t.projections, subject), TransitionsOf(t.transitions, subject), CommitCount(log, subject),
                    LifecyclesOf(log, subject));
  }

  lemma MoveExactly(log: seq<Input>, subject: string, to: Option<Lifecycle>)
    ensures IllegalMove(LastOf(LifecyclesOf(log, subject)), to) <==> MoveRefused(log, subject, to)
  {
    var last := LastOf(LifecyclesOf(log, subject));
    if last.Some? && to.Some? { LegalExactly(last.value, to.value); }
    hide LifecyclesOf, Legal, LastOf;
  }

  lemma ConflictExactly(log: seq<Input>, x: Input)
    requires Accepted(log)
    ensures StateRefusal(Replay(log), x) == ConflictWith(log, x)
  {
    hide Replay, Accepted, CommitCount, LifecyclesOf, LastOf, IllegalMove, MoveRefused, ActualVersion, Previous;
    FoundAfter(log, x.snapshot.subject);
    MoveExactly(log, x.snapshot.subject, x.request.lifecycle);
  }

  ghost predicate Used(log: seq<Input>, snapshotUid: string) {
    exists i :: 0 <= i < |log| && log[i].request.snapshotUid == snapshotUid
  }

  /** The answer to a request after a run: refused, answered again, or a new commit. */
  ghost predicate AnswerIs(log: seq<Input>, r: Request, w: World, answer: Result<CommitResult, CommitError>) {
    if WrongWith(r, w).Some? then answer == Err(WrongWith(r, w).value)
    else if Used(log, r.snapshotUid) then
      forall i :: 0 <= i < |log| && log[i].request.snapshotUid == r.snapshotUid ==>
        answer == if SameContent(r, log[i].request) then Ok(ResultAt(log, i)) else Err(DifferentCommit)
    else if ConflictWith(log, InputOf(r, w)).Some? then answer == Err(ConflictWith(log, InputOf(r, w)).value)
    else answer == Ok(ResultOfCommit(Replay(log), InputOf(r, w)))
  }

  /** A request is accepted as a new commit. */
  ghost predicate AcceptedNow(log: seq<Input>, r: Request, w: World) {
    WrongWith(r, w).None? && !Used(log, r.snapshotUid) && ConflictWith(log, InputOf(r, w)).None?
  }

  lemma StoredAnswer(log: seq<Input>, r: Request, w: World, i: nat)
    requires Accepted(log) && Refusal(r, w).None? && i < |log| && log[i].request.snapshotUid == r.snapshotUid
    ensures Outcome(Replay(log), r, w)
            == if SameContent(r, log[i].request) then Ok(ResultAt(log, i)) else Err(DifferentCommit)
    ensures !IsNew(Replay(log), r, w)
  {
    FingerprintExactly(r, log[i].request);
    ReadsBack(log, i);
    hide Replay, Accepted, Refusal, Existing, StateRefusal, ResultAt, ResultOfCommit, FingerprintOf, SameContent;
  }

  lemma FreshAnswer(log: seq<Input>, r: Request, w: World)
    requires Accepted(log) && Refusal(r, w).None? && !Used(log, r.snapshotUid)
    ensures var x := InputOf(r, w);
            Outcome(Replay(log), r, w)
            == if ConflictWith(log, x).Some? then Err(ConflictWith(log, x).value)
               else Ok(ResultOfCommit(Replay(log), x))
    ensures IsNew(Replay(log), r, w) <==> ConflictWith(log, InputOf(r, w)).None?
  {
    ConflictExactly(log, InputOf(r, w));
    NothingElseReadsBack(log, r.snapshotUid);
    hide Replay, Accepted, Refusal, Existing, StateRefusal, ResultOfCommit, ConflictWith, FingerprintOf;
  }

  /**
   * After every run: which requests are refused and why, which are answered from a stored commit, and
   * which are new, in terms of the request, its evidence and the commits before it.
   */
  lemma AnswerOfRun(log: seq<Input>, r: Request, w: World)
    requires Accepted(log)
    ensures AnswerIs(log, r, w, Outcome(Replay(log), r, w))
    ensures IsNew(Replay(log), r, w) <==> AcceptedNow(log, r, w)
  {
    RefusalExactly(r, w);
    hide Replay, Accepted, WrongWith, Refusal, ConflictWith, ResultAt, ResultOfCommit, SameContent, Existing,
         StateRefusal, FingerprintOf, IsNew;
    if WrongWith(r, w).Some? {
      RefusedAnswer(log, r, w);
    } else if Used(log, r.snapshotUid) {
      forall i | 0 <= i < |log| && log[i].request.snapshotUid == r.snapshotUid
        ensures Outcome(Replay(log), r, w)
                == if SameContent(r, log[i].request) then Ok(ResultAt(log, i)) else Err(DifferentCommit)
        ensures !IsNew(Replay(log), r, w)
      {
        StoredAnswer(log, r, w, i);
      }
    } else {
      FreshAnswer(log, r, w);
    }
  }

  lemma RefusedAnswer(log: seq<Input>, r: Request, w: World)
    requires Refusal(r, w).Some?
    ensures Outcome(Replay(log), r, w) == Err(Refusal(r, w).value) && !IsNew(Replay(log), r, w)
  {
    hide Replay, Refusal, Existing, StateRefusal, ResultOfCommit, FingerprintOf;
  }

  // ---- the projection of a subject

  predicate Valid(x: Input, subject: string) { x.snapshot.subject == subject && x.request.lifecycle.Some? }

  /** Commit i is the last of the subject, and the projection shows it. */
  ghost predicate ShowsCommit(p: StateProjection, log: seq<Input>, subject: string, i: nat) {
    && i < |log| && log[i].snapshot.subject == subject
    && (forall j :: i < j < |log| ==> log[j].snapshot.subject != subject)
    && ShowsLast(p, log[i], ResultAt(log, i))
  }

  predicate ShowsLast(p: StateProjection, x: Input, r: CommitResult) {
    && p.availability == x.request.availability && p.effective == x.request.lifecycle
    && p.evaluation == r.stateUid && p.asOf == x.snapshot.asOf && (p.rewarm <==> x.request.availability == WarmingUp)
  }

  /** Commit i is the last of the subject with a lifecycle, and the projection remembers it. */
  ghost predicate ShowsLifecycle(p: StateProjection, log: seq<Input>, subject: string, i: nat) {
    && i < |log| && Valid(log[i], subject) && (forall j :: i < j < |log| ==> !Valid(log[j], subject))
    && p.lastValid == log[i].request.lifecycle && p.lastValidTime == Some(log[i].snapshot.asOf)
  }

  ghost predicate NoneValid(log: seq<Input>, subject: string) { forall i :: 0 <= i < |log| ==> !Valid(log[i], subject) }

  ghost predicate Unknown(log: seq<Input>, subject: string) {
    forall i :: 0 <= i < |log| ==> log[i].snapshot.subject != subject
  }

  /** The projection shows the last commit of the subject, and the last one that had a lifecycle. */
  ghost predicate Projected(p: Option<StateProjection>, log: seq<Input>, subject: string) {
    if p.None? then Unknown(log, subject)
    else
      && p.value.version == CommitCount(log, subject) >= 1
      && (exists i: nat :: ShowsCommit(p.value, log, subject, i))
      && if NoneValid(log, subject) then p.value.lastValid == None && p.value.lastValidTime == None
         else exists i: nat :: ShowsLifecycle(p.value, log, subject, i)
  }

  /** What one commit makes of the projections. */
  lemma StepProjects(t: Tables, x: Input)
    ensures CommitStep(t, x).projections
            == t.projections[x.snapshot.subject :=
                 NextProjection(Lookup(t.projections, x.snapshot.subject), x.request.availability, x.request.lifecycle,
                                ResultOfCommit(t, x).stateUid, x.snapshot.asOf)]
  {
    CommitStepState(t, x);
    hide EventsStep, RiskOf, OpportunityOf, FingerprintOf, NextProjection, Moves, Previous, Map, AnalysisStep, ChannelsOf,
         CommitStep;
  }

  lemma ShowsNew(q: StateProjection, log: seq<Input>, x: Input)
    requires ShowsLast(q, x, ResultOfCommit(Replay(log), x))
    ensures ShowsCommit(q, log + [x], x.snapshot.subject, |log|)
    ensures x.request.lifecycle.Some? && q.lastValid == x.request.lifecycle && q.lastValidTime == Some(x.snapshot.asOf)
            ==> ShowsLifecycle(q, log + [x], x.snapshot.subject, |log|)
  {
    LastResult(log, x);
    hide ResultAt, ResultOfCommit, Replay, ShowsLast;
  }

  lemma StillShows(p: StateProjection, log: seq<Input>, x: Input, subject: string, i: nat)
    requires ShowsCommit(p, log, subject, i) && x.snapshot.subject != subject
    ensures ShowsCommit(p, log + [x], subject, i)
  {
    hide ResultAt, ShowsLast, ResultOfCommit, Replay;
    SameResult(log, x, i);
  }

  lemma StillRemembers(p: StateProjection, q: StateProjection, log: seq<Input>, x: Input, subject: string, i: nat)
    requires ShowsLifecycle(p, log, subject, i) && !Valid(x, subject)
    requires q.lastValid == p.lastValid && q.lastValidTime == p.lastValidTime
    ensures ShowsLifecycle(q, log + [x], subject, i)
  {
    hide Valid;
  }

  lemma NoneValidNext(log: seq<Input>, x: Input, subject: string)
    ensures NoneValid(log + [x], subject) <==> NoneValid(log, subject) && !Valid(x, subject)
    ensures Unknown(log + [x], subject) <==> Unknown(log, subject) && x.snapshot.subject != subject
    ensures Unknown(log, subject) ==> NoneValid(log, subject)
  {
    var longer := log + [x];
    assert longer[|log|] == x && forall i | 0 <= i < |log| :: longer[i] == log[i];
  }

  lemma OwnProjected(p: Option<StateProjection>, log: seq<Input>, x: Input, stateUid: nat)
    requires Projected(p, log, x.snapshot.subject) && ActualVersion(p) == CommitCount(log, x.snapshot.subject)
    requires ShowsAs(NextProjection(p, x.request.availability, x.request.lifecycle, stateUid, x.snapshot.asOf), log, x)
    ensures Projected(
              Some(NextProjection(p, x.request.availability, x.request.lifecycle, stateUid, x.snapshot.asOf)),
              log + [x], x.snapshot.subject)
  {
    hide CommitCount, LifecyclesOf, ShowsCommit, ShowsLifecycle, NoneValid, Unknown;
    var subject, longer := x.snapshot.subject, log + [x];
    NoneValidNext(log, x, subject);
    HistorySnoc(log, x, subject);
    var q := NextProjection(p, x.request.availability, x.request.lifecycle, stateUid, x.snapshot.asOf);
    if x.request.lifecycle.None? && p.Some? && !NoneValid(log, subject) {
      var i: nat :| ShowsLifecycle(p.value, log, subject, i);
      StillRemembers(p.value, q, log, x, subject, i);
    }
  }

  /** The projection shows the commit just made. */
  ghost predicate ShowsAs(q: StateProjection, log: seq<Input>, x: Input) {
    && ShowsCommit(q, log + [x], x.snapshot.subject, |log|)
    && (x.request.lifecycle.Some? ==> ShowsLifecycle(q, log + [x], x.snapshot.subject, |log|))
  }

  lemma NextShows(p: Option<StateProjection>, log: seq<Input>, x: Input)
    ensures ShowsAs(NextProjection(p, x.request.availability, x.request.lifecycle,
                                   ResultOfCommit(Replay(log), x).stateUid, x.snapshot.asOf), log, x)
  {
    hide ResultOfCommit, Replay, ResultAt, ShowsCommit, ShowsLifecycle;
    ShowsNew(NextProjection(p, x.request.availability, x.request.lifecycle, ResultOfCommit(Replay(log), x).stateUid,
                            x.snapshot.asOf), log, x);
  }

  lemma OtherProjected(p: Option<StateProjection>, log: seq<Input>, x: Input, subject: string)
    requires Projected(p, log, subject) && x.snapshot.subject != subject
    ensures Projected(p, log + [x], subject)
  {
    NoneValidNext(log, x, subject);
    HistorySnoc(log, x, subject);
    hide CommitCount, LifecyclesOf, ShowsCommit, ShowsLifecycle, NoneValid, Unknown;
    if p.Some? {
      var i: nat :| ShowsCommit(p.value, log, subject, i);
      StillShows(p.value, log, x, subject, i);
      if !NoneValid(log, subject) {
        var j: nat :| ShowsLifecycle(p.value, log, subject, j);
        StillRemembers(p.value, p.value, log, x, subject, j);
      }
    }
  }

  lemma NothingProjected(subject: string)
    ensures Projected(Lookup(Replay([]).projections, subject), [], subject)
  {
  }

  lemma {:induction false} ProjectionOfRun(log: seq<Input>, subject: string)
    requires Accepted(log)
    ensures Projected(Lookup(Replay(log).projections, subject), log, subject)
  {
    hide *;
    if log == [] {
      NothingProjected(subject);
    } else {
      var before, x := log[..|log| - 1], log[|log| - 1];
      assert before + [x] == log;
      ReplaySnoc(before, x);
      ProjectionOfRun(before, subject);
      StepProjects(Replay(before), x);
      ProjectedNext(before, x, subject);
    }
  }

  lemma ProjectedNext(log: seq<Input>, x: Input, subject: string)
    requires Accepted(log) && Projected(Lookup(Replay(log).projections, subject), log, subject)
    ensures Projected(Lookup(CommitStep(Replay(log), x).projections, subject), log + [x], subject)
  {
    hide Projected, Replay, CommitStep, NextProjection, Accepted, ActualVersion, ResultOfCommit, CommitCount, ShowsAs;
    StepProjects(Replay(log), x);
    if subject == x.snapshot.subject {
      FoundAfter(log, subject);
      NextShows(Lookup(Replay(log).projections, subject), log, x);
      OwnProjected(Lookup(Replay(log).projections, subject), log, x, ResultOfCommit(Replay(log), x).stateUid);
    } else {
      OtherProjected(Lookup(Replay(log).projections, subject), log, x, subject);
    }
  }

  // ---- the versions of events

  /** A fact that the version of an event of this kind rests on. */
  ghost predicate RestsOn(kind: EventKind, x: Input, uid: string) {
    if kind == GuardianRisk then !Unreliable(x) && exists code <- GUARDIAN_CODES :: MeetsBy(x, code, uid)
    else exists code <- SCOUT_CODES :: MeetsBy(x, code, uid)
  }

  /** The version was written by commit x, which returned r, with the facts it rests on. */
  ghost predicate VersionSays(v: EventVersion, kind: EventKind, x: Input, r: CommitResult) {
    && v.commitUid == r.commitUid && v.stateUid == r.stateUid
    && v.guardianUid == r.guardianUid && v.scoutUid == r.scoutUid && v.createdAt == x.snapshot.asOf
    && v.status == (if CalledFor(kind, x) then Live else Resolved)
    && forall uid :: uid in v.evidence <==> CalledFor(kind, x) && RestsOn(kind, x, uid)
  }

  ghost predicate WrittenAt(v: EventVersion, events: seq<MarketEvent>, log: seq<Input>, i: nat, e: MarketEvent) {
    && i < |log| && e in events && e.uid == v.eventUid && e.key.subject == log[i].snapshot.subject
    && VersionSays(v, e.key.kind, log[i], ResultAt(log, i))
  }

  ghost predicate Written(v: EventVersion, events: seq<MarketEvent>, log: seq<Input>) {
    exists i: nat, e :: WrittenAt(v, events, log, i, e)
  }

  lemma RestsExactly(kind: EventKind, x: Input, c: Cycle, uid: string)
    requires c.risk == RiskOf(x) && c.opportunity == OpportunityOf(x)
    ensures uid in EvidenceOf(c, kind) <==> RestsOn(kind, x, uid)
  {
    hide RiskOf, OpportunityOf, MeetsBy, Unreliable, LimitedData, LacksFact, G.TagFor, G.SeverityFor;
    if kind == GuardianRisk {
      forall f ensures f in c.risk.findings <==> Found(x, f) { FindingsFound(x, f); }
      forall code | code in GUARDIAN_CODES && MeetsBy(x, code, uid) && !Unreliable(x) ensures uid in EvidenceOf(c, kind) {
        var f := G.Finding(G.TagFor(code), G.SeverityFor(code), G.ThresholdMet(G.TagFor(code)), Some(uid));
        assert RiskFound(x, f) && Found(x, f);
      }
    } else {
      forall o ensures o in c.opportunity.opportunities <==> o.code in SCOUT_CODES && MeetsBy(x, o.code, o.fact) {
        OpportunitiesFound(x, o);
      }
      forall code | code in SCOUT_CODES && MeetsBy(x, code, uid) ensures uid in EvidenceOf(c, kind) {
        assert S.Opportunity(code, uid) in c.opportunity.opportunities;
      }
    }
  }

  /** The cycle is that of commit x with the identifiers of r. */
  predicate CycleFor(c: Cycle, x: Input, r: CommitResult) {
    && c.subject == x.snapshot.subject && c.asOf == x.snapshot.asOf
    && c.commitUid == r.commitUid && c.stateUid == r.stateUid
    && c.guardianUid == r.guardianUid && c.scoutUid == r.scoutUid
    && c.risk == RiskOf(x) && c.opportunity == OpportunityOf(x)
  }

  lemma NewVersionSays(t: Tables, c: Cycle, kind: EventKind, x: Input, r: CommitResult)
    requires CycleFor(c, x, r)
    ensures VersionSays(NewVersion(t, c, kind), kind, x, r)
  {
    RiskDesiredExactly(x);
    WatchDesiredExactly(x);
    hide RiskOf, OpportunityOf, RestsOn, RiskCalledFor, WatchCalledFor, Desired, EvidenceOf, IsLive, EventUidOf, EventRowStep;
    forall uid ensures uid in EvidenceOf(c, kind) <==> RestsOn(kind, x, uid) { RestsExactly(kind, x, c, uid); }
  }

  /** The events step of one kind adds its version, if any, and an event for it. */
  lemma EventStepWrites(t: Tables, c: Cycle, kind: EventKind)
    requires WellFormed(t)
    ensures var after, v := EventStep(t, c, kind), NewVersion(t, c, kind);
            && WellFormed(after) && t.events <= after.events
            && (after.versions == t.versions
                || (after.versions == t.versions + [v]
                    && exists e :: e in after.events && e.uid == v.eventUid && e.key == EventKey(c.subject, kind)))
  {
    N.EventStepWellFormed(t, c, kind);
    if Idle(t, c, kind) {
      N.StaysIdle(t, c, kind);
    } else {
      N.EventStepIs(t, c, kind);
      N.VersionAddedFields(t, c, kind);
      OwnEvent(t, c, kind);
      var v := NewVersion(t, c, kind);
      hide NewVersion, EventStep, EventRowStep, EventUidOf, WellFormed, Idle, IntentStep, N.VersionAdded;
      IntentsLeaveEvents(N.VersionAdded(t, c, kind), c, IntentKindOf(kind, v.status == Live), v, c.channels);
    }
  }

  ghost predicate AllWritten(t: Tables, log: seq<Input>) { forall v <- t.versions :: Written(v, t.events, log) }

  lemma StaysWritten(v: EventVersion, events: seq<MarketEvent>, more: seq<MarketEvent>, log: seq<Input>, x: Input)
    requires Written(v, events, log) && events <= more
    ensures Written(v, more, log + [x])
  {
    hide VersionSays, ResultAt;
    var i: nat, e :| WrittenAt(v, events, log, i, e);
    SameResult(log, x, i);
    assert WrittenAt(v, more, log + [x], i, e);
  }

  lemma MoreWritten(v: EventVersion, events: seq<MarketEvent>, more: seq<MarketEvent>, log: seq<Input>)
    requires Written(v, events, log) && events <= more
    ensures Written(v, more, log)
  {
    hide VersionSays, ResultAt;
    var i: nat, e :| WrittenAt(v, events, log, i, e);
    assert WrittenAt(v, more, log, i, e);
  }

  lemma EventStepWritten(t: Tables, c: Cycle, kind: EventKind, log: seq<Input>)
    requires WellFormed(t) && AllWritten(t, log) && log != []
    requires CycleFor(c, log[|log| - 1], ResultAt(log, |log| - 1))
    ensures WellFormed(EventStep(t, c, kind)) && AllWritten(EventStep(t, c, kind), log)
  {
    hide WellFormed, EventStep, NewVersion, CycleFor, VersionSays, ResultAt, Written;
    EventStepWrites(t, c, kind);
    var after, v := EventStep(t, c, kind), NewVersion(t, c, kind);
    forall w | w in t.versions ensures Written(w, after.events, log) { MoreWritten(w, t.events, after.events, log); }
    if after.versions != t.versions {
      var e :| e in after.events && e.uid == v.eventUid && e.key == EventKey(c.subject, kind);
      NewWritten(t, c, kind, log, after.events, e);
    }
  }

  lemma NewWritten(t: Tables, c: Cycle, kind: EventKind, log: seq<Input>, events: seq<MarketEvent>, e: MarketEvent)
    requires log != [] && CycleFor(c, log[|log| - 1], ResultAt(log, |log| - 1))
    requires e in events && e.uid == NewVersion(t, c, kind).eventUid && e.key == EventKey(c.subject, kind)
    ensures Written(NewVersion(t, c, kind), events, log)
  {
    hide VersionSays, ResultAt, RiskOf, OpportunityOf, NewVersion;
    NewVersionSays(t, c, kind, log[|log| - 1], ResultAt(log, |log| - 1));
    assert WrittenAt(NewVersion(t, c, kind), events, log, |log| - 1, e);
  }

  lemma CycleIs(t: Tables, x: Input)
    ensures CycleFor(CycleOf(t, x), x, ResultOfCommit(t, x))
  {
    hide RiskOf, OpportunityOf, StateStep, AnalysisStep, EventsStep, ChannelsOf, Map, Added;
  }

  lemma CommitWrites(log: seq<Input>, x: Input)
    requires WellFormed(Replay(log)) && AllWritten(Replay(log), log)
    ensures WellFormed(Replay(log + [x])) && AllWritten(Replay(log + [x]), log + [x])
  {
    hide WellFormed, AnalysisStep, AuditStep, EventStep, CycleOf, ResultOfCommit, Replay, Written, CycleFor, ResultAt;
    ReplaySnoc(log, x);
    var t := Replay(log);
    var t0, c, longer := AnalysisStep(t, x), CycleOf(t, x), log + [x];
    AnalysisLeavesEvents(t, x);
    SameEventsWellFormed(t, t0);
    forall v | v in t0.versions ensures Written(v, t0.events, longer) { StaysWritten(v, t.events, t0.events, log, x); }
    LastResult(log, x);
    CycleIs(t, x);
    EventStepWritten(t0, c, GuardianRisk, longer);
    EventStepWritten(EventStep(t0, c, GuardianRisk), c, ScoutWatch, longer);
    AuditLeavesEvents(EventsStep(t0, c), x, ResultOfCommit(t, x));
    SameEventsWellFormed(EventsStep(t0, c), CommitStep(t, x));
  }

  lemma NothingWritten()
    ensures WellFormed(Replay([])) && AllWritten(Replay([]), [])
  {
  }

  /**
   * In every run each version was written by one of its subject's commits, is LIVE exactly if that commit
   * called for it, and rests on exactly the facts that reached their thresholds then.
   */
  lemma {:induction false} VersionsOfRun(log: seq<Input>)
    ensures WellFormed(Replay(log)) && AllWritten(Replay(log), log)
  {
    hide *;
    if log == [] {
      NothingWritten();
    } else {
      var before, x := log[..|log| - 1], log[|log| - 1];
      assert before + [x] == log;
      VersionsOfRun(before);
      CommitWrites(before, x);
    }
  }

  // ---- whose intents they are

  /** The intent was put up by commit i of the run, in the generation of that commit. */
  ghost predicate PutBy(n: Intent, log: seq<Input>, i: nat) {
    i < |log| && n.uid in ResultAt(log, i).intents && n.generation == log[i].generation
  }

  ghost predicate AllPut(intents: seq<Intent>, log: seq<Input>) {
    forall n <- intents :: exists i: nat :: PutBy(n, log, i)
  }

  /** Only intents of the cycle's generation are added. */
  ghost predicate AddsOf(before: seq<Intent>, after: seq<Intent>, generation: nat) {
    before <= after && forall k :: |before| <= k < |after| ==> after[k].generation == generation
  }

  lemma {:induction false} IntentsAdd(t: Tables, c: Cycle, kind: IntentKind, v: EventVersion, channels: seq<Channel>)
    ensures AddsOf(t.intents, IntentStep(t, c, kind, v, channels).intents, c.generation)
  {
    hide FrozenOf;
    if channels != [] { IntentsAdd(t, c, kind, v, channels[..|channels| - 1]); }
  }

  lemma EventAdds(t: Tables, c: Cycle, kind: EventKind)
    ensures AddsOf(t.intents, EventStep(t, c, kind).intents, c.generation)
  {
    hide VersionOf, Desired, IsLive, IntentStep, IntentKindOf, EventUidOf;
    if !Idle(t, c, kind) {
      var t1 := EventRowStep(t, c, kind);
      var key := EventKey(c.subject, kind);
      var v := VersionOf(t1.nextUid, EventUidOf(t, key), Lookup(t.current, key), c, kind);
      IntentsAdd(VersionStep(t1, key, v), c, IntentKindOf(kind, Desired(kind, c.risk, c.opportunity)), v, c.channels);
    }
  }

  lemma CommitAdds(t: Tables, x: Input)
    ensures AddsOf(t.intents, CommitStep(t, x).intents, x.generation)
    ensures ResultOfCommit(t, x).intents == Map(IntentUid, Added(t.intents, CommitStep(t, x).intents))
  {
    N.AnalysisLeavesNotices(t, x);
    assert CycleOf(t, x).generation == x.generation by { hide *; GenerationIs(t, x); }
    hide AnalysisStep, CycleOf, EventStep, RiskOf, OpportunityOf, FingerprintOf, Map, N.HasCommit;
    var c, t0 := CycleOf(t, x), AnalysisStep(t, x);
    EventAdds(t0, c, GuardianRisk);
    EventAdds(EventStep(t0, c, GuardianRisk), c, ScoutWatch);
  }

  lemma GenerationIs(t: Tables, x: Input)
    ensures CycleOf(t, x).generation == x.generation
  {
    hide StateStep, RiskOf, OpportunityOf, ChannelsOf;
  }

  lemma AddedPut(before: seq<Intent>, after: seq<Intent>, log: seq<Input>, x: Input, r: CommitResult)
    requires AllPut(before, log) && AddsOf(before, after, x.generation)
    requires r == ResultAt(log + [x], |log|) && r.intents == Map(IntentUid, Added(before, after))
    ensures AllPut(after, log + [x])
  {
    hide ResultAt;
    forall n | n in after ensures exists i: nat :: PutBy(n, log + [x], i) {
      if n in before {
        var i: nat :| PutBy(n, log, i);
        SameResult(log, x, i);
        assert PutBy(n, log + [x], i);
      } else {
        var k :| 0 <= k < |after| && after[k] == n;
        assert Added(before, after)[k - |before|] == n;
        MappedMember(IntentUid, Added(before, after), n);
        assert PutBy(n, log + [x], |log|);
      }
    }
  }

  /** In every run each intent is among those that some commit returned, in the generation of that commit. */
  lemma {:induction false} IntentsOfRun(log: seq<Input>)
    ensures AllPut(Replay(log).intents, log)
  {
    hide *;
    if log == [] {
      NothingPutYet();
    } else {
      var before, x := log[..|log| - 1], log[|log| - 1];
      assert before + [x] == log;
      IntentsOfRun(before);
      ReplaySnoc(before, x);
      CommitAdds(Replay(before), x);
      LastResult(before, x);
      AddedPut(Replay(before).intents, Replay(log).intents, before, x, ResultOfCommit(Replay(before), x));
    }
  }

  lemma NothingPutYet()
    ensures AllPut(Replay([]).intents, [])
  {
  }
}
