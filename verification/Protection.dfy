/** Protection first: what is live after a commit whose data cannot be relied on. */
module Protection {
  import opened Wrappers
  import opened Sequences
  import opened Domain
  import opened CommitTables
  import opened EventHistory
  import G = Guardian
  import S = Scout
  import M = MetricProducer
  import MarketMetrics

  /** Commit number i is the last one of its subject. */
  ghost predicate LastOfSubject(log: seq<Input>, i: nat) {
    i < |log| && forall j :: i < j < |log| ==> log[j].snapshot.subject != log[i].snapshot.subject
  }

  /** The last commit of a subject alone decides which of its events are live. */
  lemma {:induction false} LastCommitDecides(log: seq<Input>, i: nat, kind: EventKind)
    requires LastOfSubject(log, i)
    ensures IsLive(Lookup(Replay(log).current, EventKey(log[i].snapshot.subject, kind)))
            <==> Desired(kind, RiskOf(log[i]), OpportunityOf(log[i]))
  {
    hide Replay, Desired, RiskOf, OpportunityOf, IsLive;
    var key := EventKey(log[i].snapshot.subject, kind);
    EventCountsOfRun(log, key);
    TraceEnd(log, i, kind);
  }

  lemma {:induction false} TraceEnd(log: seq<Input>, i: nat, kind: EventKind)
    requires LastOfSubject(log, i)
    ensures Last(DesiredTrace(log, EventKey(log[i].snapshot.subject, kind)))
            <==> Desired(kind, RiskOf(log[i]), OpportunityOf(log[i]))
  {
    hide Desired, RiskOf, OpportunityOf;
    if i < |log| - 1 {
      TraceEnd(log[..|log| - 1], i, kind);
      var trace := DesiredTrace(log[..|log| - 1], EventKey(log[i].snapshot.subject, kind));
      assert trace + [] == trace;
    }
  }

  /** The data of the commit cannot be relied on. */
  ghost predicate Unreliable(x: Input) {
    || x.request.availability != Available
    || x.snapshot.health == UnknownHealth || x.snapshot.health == Unhealthy
    || x.snapshot.fitness == UnknownFitness || x.snapshot.fitness == Unfit
    || exists code <- GUARDIAN_CODES :: forall f <- x.facts :: f.code != code
  }

  lemma ValueMeansFact(facts: seq<Fact>, code: MetricCode)
    ensures code in ValuesOf(facts) <==> exists f <- facts :: f.code == code
  {
    IndexKeys(FactCode, FactValue, facts, code);
    hide Index;
    if code in ValuesOf(facts) {
      var i :| 0 <= i < |facts| && FactCode(facts[i]) == code;
      assert facts[i] in facts;
    }
    if f: Fact :| f in facts && f.code == code {
      var i :| 0 <= i < |facts| && facts[i] == f;
      assert FactCode(facts[i]) == code;
    }
  }

  lemma UnreliableExactly(x: Input)
    ensures Unreliable(x) <==> G.IsUnavailable(SituationOf(x))
  {
    hide ValuesOf;
    forall code ensures code in ValuesOf(x.facts) <==> exists f <- x.facts :: f.code == code {
      ValueMeansFact(x.facts, code);
    }
  }

  lemma UnreliablePauses(x: Input)
    requires Unreliable(x)
    ensures RiskOf(x).effect == G.Pause && RiskOf(x).severity == G.Critical && RiskOf(x).blocking
    ensures OpportunityOf(x).suppressed
  {
    UnreliableExactly(x);
    G.UnavailablePauses(SituationOf(x), x.thresholds, UidsOf(x.facts));
    hide G.FindingsOf, G.EffectsOf, G.CountingRules, S.ScoutMatches, ValuesOf, UidsOf, SituationOf,
         S.OpportunitiesOf, G.IsUnavailable, G.MaxEffect, G.MaxSeverity, Unreliable;
  }

  /**
   * Whatever the run, after a subject's unreliable commit its GUARDIAN_RISK event is live and its
   * SCOUT_WATCH event is not, until the subject's next commit.
   */
  lemma ProtectionOfRun(log: seq<Input>, i: nat)
    requires LastOfSubject(log, i) && Unreliable(log[i])
    ensures var current, subject := Replay(log).current, log[i].snapshot.subject;
            && IsLive(Lookup(current, EventKey(subject, GuardianRisk)))
            && !IsLive(Lookup(current, EventKey(subject, ScoutWatch)))
  {
    UnreliablePauses(log[i]);
    LastCommitDecides(log, i, GuardianRisk);
    LastCommitDecides(log, i, ScoutWatch);
    hide Replay, IsLive, RiskOf, OpportunityOf;
  }

  /** The Scout facts of the commit are the values that the metric producer reported. */
  ghost predicate FromProducer(x: Input, out: M.MetricOutput) {
    forall f <- x.facts :: f.code in SCOUT_CODES ==> f.code in M.ScoutMetrics(out)
  }

  lemma WatchNeedsScoutFact(x: Input)
    requires Desired(ScoutWatch, RiskOf(x), OpportunityOf(x))
    ensures exists f <- x.facts :: f.code in SCOUT_CODES
  {
    hide G.Decide, S.DecideScout, ValuesOf, UidsOf, S.MetCodes;
    var met := S.MetCodes(ValuesOf(x.facts), x.thresholds);
    S.StatusExactly(ValuesOf(x.facts), UidsOf(x.facts), x.thresholds, RiskOf(x).effect);
    var code :| code in met;
    MetIsPresent(ValuesOf(x.facts), x.thresholds, code);
    ValueMeansFact(x.facts, code);
  }

  lemma MetIsPresent(metrics: map<MetricCode, int>, thresholds: G.Thresholds, code: MetricCode)
    requires code in S.MetCodes(metrics, thresholds)
    ensures code in SCOUT_CODES && code in metrics
  {
  }

  /** A live SCOUT_WATCH event rests on an input that the producer found FIT. */
  lemma WatchNeedsFitInput(log: seq<Input>, i: nat, complete: bool, input: M.MetricInput)
    requires LastOfSubject(log, i) && FromProducer(log[i], M.Evaluation(complete, input))
    requires IsLive(Lookup(Replay(log).current, EventKey(log[i].snapshot.subject, ScoutWatch)))
    ensures M.Evaluation(complete, input).quality.fitness == Fit
  {
    LastCommitDecides(log, i, ScoutWatch);
    hide Replay, M.Evaluation, Desired, RiskOf, OpportunityOf, M.ScoutMetrics;
    WatchNeedsScoutFact(log[i]);
    MarketMetrics.GateGuarantees(complete, input);
    var f :| f in log[i].facts && f.code in SCOUT_CODES;
    assert f.code in M.ScoutMetrics(M.Evaluation(complete, input));
  }

  // ---- exactly which events are live, from the facts alone

  /** The last fact of the code reaches its threshold. */
  ghost predicate FactMeets(x: Input, code: MetricCode) {
    exists i :: 0 <= i < |x.facts| && IsLastOf(x.facts, i, code) && x.facts[i].value >= x.thresholds[code]
  }

  predicate IsLastOf(facts: seq<Fact>, i: nat, code: MetricCode)
    requires i < |facts|
  {
    facts[i].code == code && forall j :: i < j < |facts| ==> facts[j].code != code
  }

  /** The data is bad or limited, or a risk reaches its threshold. */
  ghost predicate RiskCalledFor(x: Input) {
    || Unreliable(x) || x.snapshot.health == Degraded || x.snapshot.fitness == FitWithLimitations
    || exists code <- GUARDIAN_CODES :: FactMeets(x, code)
  }

  /** Three different opportunities on reliable data, with none of the three risks that suppress. */
  ghost predicate WatchCalledFor(x: Input) {
    && !Unreliable(x)
    && |set code | code in SCOUT_CODES && FactMeets(x, code)| >= 3
    && !FactMeets(x, BreadthCollapse) && !FactMeets(x, StampedeRisk) && !FactMeets(x, T1Chasing)
  }

  lemma {:induction false} ValueIsLast(facts: seq<Fact>, code: MetricCode)
    ensures code in ValuesOf(facts) <==> exists i :: 0 <= i < |facts| && IsLastOf(facts, i, code)
    ensures forall i :: 0 <= i < |facts| && IsLastOf(facts, i, code) ==>
              code in ValuesOf(facts) && ValuesOf(facts)[code] == facts[i].value
  {
    if facts != [] {
      var front := facts[..|facts| - 1];
      ValueIsLast(front, code);
      if facts[|facts| - 1].code == code {
        assert IsLastOf(facts, |facts| - 1, code);
      } else {
        forall i | 0 <= i < |front| ensures IsLastOf(facts, i, code) <==> IsLastOf(front, i, code) {
          assert forall j | i < j < |front| :: facts[j] == front[j];
        }
      }
    }
  }

  lemma FactMeetsExactly(x: Input, code: MetricCode)
    requires code in ALL_CODES
    ensures FactMeets(x, code) <==> G.MetricMet(SituationOf(x), x.thresholds, code)
    ensures FactMeets(x, code) <==> S.OpportunityMet(ValuesOf(x.facts), x.thresholds, code)
  {
    ValueIsLast(x.facts, code);
    hide ValuesOf, IsLastOf;
  }

  lemma RiskDesiredExactly(x: Input)
    ensures Desired(GuardianRisk, RiskOf(x), OpportunityOf(x)) <==> RiskCalledFor(x)
  {
    var s := SituationOf(x);
    UnreliableExactly(x);
    G.EffectExactly(s, x.thresholds, UidsOf(x.facts));
    G.CodesSplit(s, x.thresholds);
    forall code | code in GUARDIAN_CODES ensures FactMeets(x, code) <==> G.MetricMet(s, x.thresholds, code) {
      FactMeetsExactly(x, code);
    }
    hide G.Decide, G.IsUnavailable, G.MetricMet, FactMeets, Unreliable, OpportunityOf;
  }

  lemma MetFacts(x: Input)
    ensures S.MetCodes(ValuesOf(x.facts), x.thresholds) == set code | code in SCOUT_CODES && FactMeets(x, code)
  {
    forall code | code in SCOUT_CODES
      ensures FactMeets(x, code) <==> S.OpportunityMet(ValuesOf(x.facts), x.thresholds, code)
    {
      FactMeetsExactly(x, code);
    }
    hide FactMeets, S.OpportunityMet, ValuesOf;
  }

  lemma BlocksExactly(x: Input)
    ensures G.Blocks(RiskOf(x).effect)
            <==> Unreliable(x) || FactMeets(x, BreadthCollapse) || FactMeets(x, StampedeRisk) || FactMeets(x, T1Chasing)
  {
    var s := SituationOf(x);
    UnreliableExactly(x);
    G.EffectExactly(s, x.thresholds, UidsOf(x.facts));
    FactMeetsExactly(x, BreadthCollapse);
    FactMeetsExactly(x, StampedeRisk);
    FactMeetsExactly(x, T1Chasing);
    hide G.Decide, G.IsUnavailable, G.MetricMet, FactMeets, Unreliable;
    assert G.AnyMet(s, x.thresholds, G.SUPPRESSING)
           <==> G.MetricMet(s, x.thresholds, BreadthCollapse) || G.MetricMet(s, x.thresholds, StampedeRisk)
                || G.MetricMet(s, x.thresholds, T1Chasing);
  }

  lemma ActiveExactly(x: Input)
    ensures OpportunityOf(x).status == S.Active <==> |set code | code in SCOUT_CODES && FactMeets(x, code)| >= 3
    ensures OpportunityOf(x).suppressed <==> G.Blocks(RiskOf(x).effect)
  {
    MetFacts(x);
    S.StatusExactly(ValuesOf(x.facts), UidsOf(x.facts), x.thresholds, RiskOf(x).effect);
    hide S.DecideScout, S.MetCodes, ValuesOf, UidsOf, RiskOf, FactMeets;
  }

  lemma WatchDesiredExactly(x: Input)
    ensures Desired(ScoutWatch, RiskOf(x), OpportunityOf(x)) <==> WatchCalledFor(x)
  {
    BlocksExactly(x);
    ActiveExactly(x);
    hide FactMeets, Unreliable, RiskOf, OpportunityOf, G.Blocks;
  }

  /**
   * Whatever the run, the last commit of a subject decides: GUARDIAN_RISK is live exactly if its data is
   * bad or limited or a risk reaches its threshold, SCOUT_WATCH exactly if three opportunities do on
   * reliable data and no risk that suppresses does.
   */
  lemma LiveExactlyOfRun(log: seq<Input>, i: nat)
    requires LastOfSubject(log, i)
    ensures var current, subject := Replay(log).current, log[i].snapshot.subject;
            && (IsLive(Lookup(current, EventKey(subject, GuardianRisk))) <==> RiskCalledFor(log[i]))
            && (IsLive(Lookup(current, EventKey(subject, ScoutWatch))) <==> WatchCalledFor(log[i]))
  {
    LastCommitDecides(log, i, GuardianRisk);
    LastCommitDecides(log, i, ScoutWatch);
    RiskDesiredExactly(log[i]);
    WatchDesiredExactly(log[i]);
    hide Replay, IsLive, Desired, RiskOf, OpportunityOf, RiskCalledFor, WatchCalledFor;
  }

  ghost predicate CalledFor(kind: EventKind, x: Input) {
    if kind == GuardianRisk then RiskCalledFor(x) else WatchCalledFor(x)
  }

  /** When an event of this key was called for, commit by commit of its subject. */
  ghost function CalledTrace(log: seq<Input>, key: EventKey): seq<bool> {
    if log == [] then []
    else
      var x := log[|log| - 1];
      CalledTrace(log[..|log| - 1], key) + if key.subject == x.snapshot.subject then [CalledFor(key.kind, x)] else []
  }

  lemma {:induction false} TraceExactly(log: seq<Input>, key: EventKey)
    ensures DesiredTrace(log, key) == CalledTrace(log, key)
  {
    hide Desired, RiskOf, OpportunityOf, RiskCalledFor, WatchCalledFor;
    if log != [] {
      TraceExactly(log[..|log| - 1], key);
      RiskDesiredExactly(log[|log| - 1]);
      WatchDesiredExactly(log[|log| - 1]);
    }
  }

  /**
   * In every run the rows of a key are the reference history of when it was called for: an event each
   * time that begins, a version for each commit that calls for it and one for each end.
   */
  lemma EventsFollowFacts(log: seq<Input>, key: EventKey)
    ensures var t, trace := Replay(log), CalledTrace(log, key);
            && KeyHistory(t, key, trace)
            && |EventsOf(t.events, key)| == Rises(trace)
            && |VersionsOf(t.versions, t.events, key)| == Trues(trace) + Falls(trace)
  {
    TraceExactly(log, key);
    EventTablesOfRun(log, key);
    EventCountsOfRun(log, key);
    hide Replay, DesiredTrace, CalledTrace, EventsOf, VersionsOf, KeyHistory;
  }
}
