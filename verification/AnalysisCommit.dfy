/** The service: one transaction that checks, evaluates, and writes all of a commit or nothing. */
module AnalysisCommit {
  import opened Wrappers
  import opened Sorting
  import opened Sequences
  import opened Domain
  import opened Lifecycles
  import opened CommitTables
  import opened CommitReplay
  import G = Guardian
  import S = Scout
  import EH = EventHistory

  datatype CommitError =
    | InvalidRequest | GateRefused | SnapshotUnusable | DifferentCommit | NoFacts
    | ProjectionConflict | IllegalTransition

  /** The persisted rows of the two metric executions of a snapshot. */
  datatype Execution = Execution(guardian: seq<FactRow>, scout: seq<FactRow>)

  /** A fact as it is stored: whether it has a value, the value's decimal scale, and its unit. */
  datatype FactRow = FactRow(fact: Fact, hasValue: bool, scale: int, unit: string)

  /** What the commit reads and never writes. */
  datatype World = World(
    snapshots: map<string, Snapshot>, evidence: bool, thresholds: Option<G.Thresholds>,
    execution: Option<Execution>, generation: nat)

  // ---- the request

  /** The characters that count as white space when a text is stripped. */
  predicate IsSpace(c: char) {
    || ('\t' <= c <= '\r') || ('\U{1c}' <= c <= ' ') || c == '\U{85}' || c == '\U{a0}' || c == '\U{1680}'
    || ('\U{2000}' <= c <= '\U{200a}') || c == '\U{2028}' || c == '\U{2029}' || c == '\U{202f}'
    || c == '\U{205f}' || c == '\U{3000}'
  }

  predicate Blank(s: string) { forall c <- s :: IsSpace(c) }

  predicate PpmMetrics(metrics: map<MetricCode, int>, allowed: set<MetricCode>) {
    metrics.Keys <= allowed && forall code <- metrics.Keys :: 0 <= metrics[code] <= 1_000_000
  }

  predicate Traced(provenance: Option<Provenance>) {
    provenance.Some? && !Blank(provenance.value.producerVersion) && !Blank(provenance.value.evidenceSha)
  }

  function RequestRefusal(r: Request): Option<CommitError> {
    if (r.availability == Available) != r.lifecycle.Some? then Some(InvalidRequest)
    else if r.expectedVersion < 0 then Some(InvalidRequest)
    else if r.channels == [] || exists c <- r.channels :: c.OtherChannel? then Some(InvalidRequest)
    else if !Traced(r.provenance) then Some(GateRefused)
    else if !PpmMetrics(r.guardianMetrics, GUARDIAN_CODES) || !PpmMetrics(r.scoutMetrics, SCOUT_CODES) then
      Some(InvalidRequest)
    else None
  }

  // ---- the facts

  /** A value in whole PPM for a code of the producer. */
  predicate Usable(row: FactRow, allowed: set<MetricCode>) {
    row.fact.code in allowed && row.hasValue && row.scale == 0 && row.unit == "PPM" && 0 <= row.fact.value <= 1_000_000
  }

  function FactOf(row: FactRow): Fact { row.fact }

  function FactsOf(rows: seq<FactRow>): seq<Fact> { Map(FactOf, rows) }

  /** One usable fact per code. */
  ghost predicate UsableFacts(rows: seq<FactRow>, allowed: set<MetricCode>) {
    && (forall row <- rows :: Usable(row, allowed))
    && DistinctBy(FactCode, FactsOf(rows))
  }

  ghost function FactMetrics(rows: seq<FactRow>, allowed: set<MetricCode>): Option<map<MetricCode, int>> {
    if UsableFacts(rows, allowed) then Some(ValuesOf(FactsOf(rows))) else None
  }

  /** Reads the rows into facts and a dictionary, refusing an unknown, repeated or unusable one. */
  method CollectFacts(rows: seq<FactRow>, allowed: set<MetricCode>)
    returns (facts: seq<Fact>, metrics: Option<map<MetricCode, int>>)
    ensures metrics == FactMetrics(rows, allowed)
    ensures metrics.Some? ==> facts == FactsOf(rows)
  {
    hide Usable;
    var values: map<MetricCode, int> := map[];
    facts := [];
    for i := 0 to |rows|
      invariant UsableFacts(rows[..i], allowed)
      invariant facts == FactsOf(rows[..i]) && values == ValuesOf(facts)
    {
      var f := rows[i].fact;
      FactsOneMore(rows, i);
      IndexKeys(FactCode, FactValue, facts, f.code);
      if !Usable(rows[i], allowed) {
        assert rows[i] in rows;
        return facts, None;
      }
      if f.code in values {
        RepeatedCode(rows, allowed, i);
        return facts, None;
      }
      assert rows[..i + 1] == rows[..i] + [rows[i]];
      assert (facts + [f])[..|facts|] == facts;
      values := values[f.code := f.value];
      facts := facts + [f];
    }
    assert rows[..|rows|] == rows;
    return facts, Some(values);
  }

  lemma FactsOneMore(rows: seq<FactRow>, i: nat)
    requires i < |rows|
    ensures FactsOf(rows[..i + 1]) == FactsOf(rows[..i]) + [rows[i].fact]
  {
    assert rows[..i + 1] == rows[..i] + [rows[i]];
    MapConcat(FactOf, rows[..i], [rows[i]]);
  }

  /** A code that was read before makes the rows unusable. */
  lemma RepeatedCode(rows: seq<FactRow>, allowed: set<MetricCode>, i: nat)
    requires i < |rows| && exists f <- FactsOf(rows[..i]) :: FactCode(f) == rows[i].fact.code
    ensures !UsableFacts(rows, allowed)
  {
    var before, facts := FactsOf(rows[..i]), FactsOf(rows);
    var j :| 0 <= j < |before| && FactCode(before[j]) == rows[i].fact.code;
    assert before[j] == rows[j].fact && facts[j] == rows[j].fact && facts[i] == rows[i].fact;
    assert FactCode(facts[j]) == FactCode(facts[i]);
  }

  ghost function EvidenceRefusal(r: Request, w: World): Option<CommitError> {
    if !w.evidence then Some(GateRefused)
    else if r.snapshotUid !in w.snapshots || !w.snapshots[r.snapshotUid].sealed || !w.snapshots[r.snapshotUid].official then
      Some(SnapshotUnusable)
    else if w.thresholds.None? || w.execution.None? then Some(GateRefused)
    else if FactMetrics(w.execution.value.guardian, GUARDIAN_CODES) != Some(r.guardianMetrics)
         || FactMetrics(w.execution.value.scout, SCOUT_CODES) != Some(r.scoutMetrics) then Some(GateRefused)
    else None
  }

  /** Everything that is checked before the tables are looked at. */
  ghost function Refusal(r: Request, w: World): Option<CommitError> {
    if RequestRefusal(r).Some? then RequestRefusal(r) else EvidenceRefusal(r, w)
  }

  /** The input of the transaction, once nothing is refused. */
  function InputOf(r: Request, w: World): Input
    requires r.snapshotUid in w.snapshots && w.thresholds.Some? && w.execution.Some?
  {
    Input(r, w.snapshots[r.snapshotUid], FactsOf(w.execution.value.guardian) + FactsOf(w.execution.value.scout),
          w.thresholds.value, w.generation)
  }

  // ---- the state

  function StateRefusal(t: Tables, x: Input): Option<CommitError> {
    var current := Lookup(t.projections, x.snapshot.subject);
    if x.facts == [] then Some(NoFacts)
    else if ActualVersion(current) != x.request.expectedVersion then Some(ProjectionConflict)
    else if IllegalMove(Previous(current), x.request.lifecycle) then Some(IllegalTransition)
    else None
  }

  /** What a commit answers. */
  ghost function Outcome(t: Tables, r: Request, w: World): Result<CommitResult, CommitError> {
    if Refusal(r, w).Some? then Err(Refusal(r, w).value)
    else
      var existing := Existing(t, r.snapshotUid);
      if existing.Some? then
        if existing.value.0 != FingerprintOf(r) then Err(DifferentCommit) else Ok(existing.value.1)
      else if StateRefusal(t, InputOf(r, w)).Some? then Err(StateRefusal(t, InputOf(r, w)).value)
      else Ok(ResultOfCommit(t, InputOf(r, w)))
  }

  /** A commit is new when it is answered with a result that was not stored before. */
  ghost predicate IsNew(t: Tables, r: Request, w: World) {
    Outcome(t, r, w).Ok? && Existing(t, r.snapshotUid).None?
  }

  lemma ChannelsNotEmpty(channels: seq<Channel>)
    requires channels != [] && forall c <- channels :: !c.OtherChannel?
    ensures ChannelsOf(channels) != []
  {
    assert channels[0] in channels;
  }

  lemma NewIsAcceptable(t: Tables, r: Request, w: World)
    requires IsNew(t, r, w)
    ensures Acceptable(t, InputOf(r, w))
  {
    ChannelsNotEmpty(r.channels);
    CommitForMember(t.commits, r.snapshotUid);
    hide ResultOfCommit, ActualVersion, IllegalMove, Previous, FactMetrics, Traced, PpmMetrics, FingerprintOf,
         ChannelsOf, CommitFor;
  }

  // ---- Guardian as the transaction computes it

  /** Appends risks and effects rule by rule, from the facts of this commit. */
  method WeighRisks(x: Input) returns (risks: seq<G.Finding>, effect: G.Effect, blocking: bool, severity: G.Severity)
    ensures var d := RiskOf(x);
            risks == d.findings && effect == d.effect && blocking == d.blocking && severity == d.severity
  {
    hide G.Rules, G.Met, G.FindingOf, G.IsUnavailable, G.IsLimited, G.MaxEffect, G.MaxSeverity, G.FindingsOf, G.EffectsOf,
         G.MissingFacts, ValuesOf, UidsOf;
    var s, uids := SituationOf(x), UidsOf(x.facts);
    var unavailable, limited := G.IsUnavailable(s), G.IsLimited(s);
    risks := [];
    var effects: seq<G.Effect> := [];
    if unavailable || limited {
      risks := [G.Finding(
        G.DataLimitation, if unavailable then G.Critical else G.Warning,
        if G.MissingFacts(s.metrics) then G.FactsMissing else if unavailable then G.QualityRequiresPause else G.QualityLimited,
        None)];
      effects := [if unavailable then G.Pause else G.AllowWithWarning];
    }
    MissingIsUnavailable(s);
    G.NothingCounted(s, uids);
    ghost var counted: seq<G.Rule> := [];
    if !unavailable {
      ghost var met := r => G.Met(s.metrics, x.thresholds, r);
      for i := 0 to |G.Rules()|
        invariant counted == Filter(met, G.Rules()[..i])
        invariant risks == G.FindingsOf(s, counted, uids) && effects == G.EffectsOf(s, counted)
      {
        var rule := G.Rules()[i];
        assert G.Rules()[..i + 1] == G.Rules()[..i] + [rule];
        FilterSnoc(met, G.Rules()[..i], rule);
        if G.Met(s.metrics, x.thresholds, rule) {
          G.ConclusionGrows(s, counted, uids, rule);
          risks := risks + [G.FindingOf(uids, rule)];
          effects := effects + [rule.effect];
          counted := counted + [rule];
        }
      }
      assert G.Rules()[..|G.Rules()|] == G.Rules();
    }
    assert counted == G.CountingRules(s, Some(x.thresholds));
    effect := G.MaxEffect(effects);
    blocking := G.Blocks(effect);
    severity := G.MaxSeverity(risks);
  }

  lemma MissingIsUnavailable(s: G.Situation)
    ensures G.MissingFacts(s.metrics) ==> G.IsUnavailable(s)
  {
    hide G.MissingFacts;
  }

  lemma NewRow<T>(rows: seq<T>, row: T)
    ensures Added(rows, rows + [row]) == [row]
  {
  }

  /** The row counts the different Scout metrics that meet their thresholds; SUPPRESS and PAUSE suppress it. */
  ghost predicate CountsOpportunities(row: ScoutRow, x: Input, effect: G.Effect) {
    var met := |S.MetCodes(ValuesOf(x.facts), x.thresholds)|;
    && (row.status == S.Quiet <==> met == 0) && (row.status == S.Active <==> met >= 3)
    && (row.strength == S.Low <==> met < 3) && (row.strength == S.Strong <==> met >= 6)
    && |row.opportunities| == met
    && (row.suppressed <==> effect == G.Suppress || effect == G.Pause)
  }

  class AnalysisCommitService {
    var nextUid: nat
    var projections: map<string, StateProjection>
    var evaluations: seq<StateEvaluation>
    var transitions: seq<Transition>
    var guardians: seq<GuardianRow>
    var scouts: seq<ScoutRow>
    var commits: seq<CommitRow>
    var events: seq<MarketEvent>
    var versions: seq<EventVersion>
    var current: map<EventKey, CurrentEvent>
    var intents: seq<Intent>
    var deliveries: map<nat, Delivery>
    var audits: seq<Audit>
    /** The accepted commits, in order. */
    ghost var log: seq<Input>

    ghost function View(): Tables
      reads this
    {
      Tables(nextUid, projections, evaluations, transitions, guardians, scouts, commits, events, versions,
             current, intents, deliveries, audits)
    }

    /** The tables are those of a run of accepted commits. */
    ghost predicate Valid()
      reads this
    {
      Accepted(log) && View() == Replay(log)
    }

    constructor ()
      ensures Valid() && log == []
    {
      nextUid, projections, evaluations, transitions := 0, map[], [], [];
      guardians, scouts, commits, events, versions := [], [], [], [], [];
      current, intents, deliveries, audits := map[], [], map[], [];
      log := [];
    }

    method InsertEvaluation(x: Input) returns (uid: nat)
      modifies this`nextUid, this`evaluations
      ensures uid == old(nextUid) && View() == EvaluationPut(old(View()), x)
    {
      hide Map;
      uid := nextUid;
      nextUid := nextUid + 1;
      evaluations := evaluations
        + [StateEvaluation(uid, x.request.snapshotUid, x.snapshot.subject, x.request.availability,
                           x.request.lifecycle, Map(FactUid, x.facts), x.snapshot.asOf)];
    }

    method InsertTransition(x: Input, previous: Option<Lifecycle>, evaluation: nat)
      requires x.request.lifecycle.Some?
      modifies this`nextUid, this`transitions
      ensures View() == TransitionPut(old(View()), x, previous, evaluation)
    {
      transitions := transitions
        + [Transition(nextUid, x.snapshot.subject, previous, x.request.lifecycle.value, evaluation, x.snapshot.asOf)];
      nextUid := nextUid + 1;
    }

    method UpdateProjection(x: Input, found: Option<StateProjection>, evaluation: nat)
      modifies this`projections
      ensures View() == ProjectionPut(old(View()), x, found, evaluation)
    {
      hide NextProjection;
      projections := projections[x.snapshot.subject :=
        NextProjection(found, x.request.availability, x.request.lifecycle, evaluation, x.snapshot.asOf)];
    }

    method InsertState(x: Input) returns (refused: Option<CommitError>, stateUid: nat)
      modifies this`nextUid, this`evaluations, this`transitions, this`projections
      ensures refused == StateRefusal(old(View()), x)
      ensures refused.Some? ==> View() == old(View())
      ensures refused.None? ==> stateUid == old(nextUid) && View() == StateStep(old(View()), x)
    {
      hide Legal, ActualVersion, Previous, EvaluationPut, TransitionPut, ProjectionPut;
      stateUid := nextUid;
      if x.facts == [] {
        return Some(NoFacts), stateUid;
      }
      var r, found := x.request, Lookup(projections, x.snapshot.subject);
      if ActualVersion(found) != r.expectedVersion {
        return Some(ProjectionConflict), stateUid;
      }
      var previous := Previous(found);
      if r.lifecycle.Some? && previous.Some? && previous != r.lifecycle {
        if !Legal(previous.value, r.lifecycle.value) {
          return Some(IllegalTransition), stateUid;
        }
      }
      refused := None;
      stateUid := InsertEvaluation(x);
      if r.lifecycle.Some? && previous != r.lifecycle {
        InsertTransition(x, previous, stateUid);
      }
      UpdateProjection(x, found, stateUid);
    }

    method InsertGuardian(x: Input, stateUid: nat) returns (guardianUid: nat, effect: G.Effect)
      modifies this`nextUid, this`guardians
      ensures guardianUid == old(nextUid) && nextUid == guardianUid + 1 && effect == RiskOf(x).effect
      ensures View() == GuardianStep(old(View()), x, stateUid)
    {
      hide RiskOf;
      var risks, worst, blocking, severity := WeighRisks(x);
      effect := worst;
      guardianUid := nextUid;
      nextUid := nextUid + 1;
      guardians := guardians
        + [GuardianRow(guardianUid, stateUid, x.snapshot.subject, x.request.snapshotUid, effect, blocking,
                       severity, risks, x.snapshot.asOf)];
    }

    /** Runs the Scout under the Guardian's effect. */
    method InsertScout(x: Input, stateUid: nat, guardianUid: nat, effect: G.Effect) returns (scoutUid: nat)
      requires effect == RiskOf(x).effect
      modifies this`nextUid, this`scouts
      ensures scoutUid == old(nextUid) && nextUid == scoutUid + 1
      ensures View() == ScoutStep(old(View()), x, stateUid, guardianUid)
      ensures scouts != [] && CountsOpportunities(scouts[|scouts| - 1], x, effect)
    {
      hide RiskOf, S.DecideScout, S.MetCodes, ValuesOf, UidsOf;
      var d := S.EvaluateScout(ValuesOf(x.facts), UidsOf(x.facts), x.thresholds, effect);
      S.StatusExactly(ValuesOf(x.facts), UidsOf(x.facts), x.thresholds, effect);
      scoutUid := nextUid;
      nextUid := nextUid + 1;
      scouts := scouts
        + [ScoutRow(scoutUid, guardianUid, stateUid, x.snapshot.subject, x.request.snapshotUid, d.status,
                    d.strength, d.suppressed, effect, d.opportunities, x.snapshot.asOf)];
    }

    method InsertIntent(c: Cycle, kind: IntentKind, v: EventVersion, channel: Channel) returns (uid: nat)
      modifies this`nextUid, this`intents, this`deliveries
      ensures View() == IntentPut(old(View()), c, kind, v, channel)
      ensures uid == old(nextUid) && intents == old(intents) + [IntentOf(uid, c, kind, v, channel)]
    {
      hide FrozenOf;
      uid := nextUid;
      nextUid := nextUid + 1;
      intents := intents + [IntentOf(uid, c, kind, v, channel)];
      deliveries := deliveries[uid := Delivery(Pending, 0, c.asOf, 1, c.asOf)];
    }

    /** One pending intent per channel. */
    method InsertIntents(c: Cycle, kind: IntentKind, v: EventVersion) returns (uids: seq<nat>)
      modifies this`nextUid, this`intents, this`deliveries
      ensures View() == IntentStep(old(View()), c, kind, v, c.channels)
      ensures old(intents) <= intents && uids == Map(IntentUid, Added(old(intents), intents))
    {
      hide IntentStep, IntentPut, Added, Map;
      ghost var before := View();
      uids := [];
      NothingPut(before, c, kind, v);
      for i := 0 to |c.channels|
        invariant View() == IntentStep(before, c, kind, v, c.channels[..i])
        invariant before.intents <= intents && uids == Map(IntentUid, Added(before.intents, intents))
      {
        PutNext(before, c, kind, v, i);
        ghost var sofar := intents;
        var uid := InsertIntent(c, kind, v, c.channels[i]);
        AddedUid(before.intents, sofar, IntentOf(uid, c, kind, v, c.channels[i]));
        uids := uids + [uid];
      }
      assert c.channels[..|c.channels|] == c.channels;
    }

    method InsertEvent(c: Cycle, kind: EventKind, eventUid: nat)
      requires eventUid + 1 == nextUid
      modifies this`events
      ensures View() == old(View()).(events := old(events) + [MarketEvent(eventUid, EventKey(c.subject, kind), c.asOf)])
    {
      events := events + [MarketEvent(eventUid, EventKey(c.subject, kind), c.asOf)];
    }

    /** The version row, and the projection of its key updated to it. */
    method InsertVersion(key: EventKey, v: EventVersion)
      requires v.uid == nextUid
      modifies this`nextUid, this`versions, this`current
      ensures View() == VersionStep(old(View()), key, v)
    {
      nextUid := nextUid + 1;
      versions := versions + [v];
      current := current[key := CurrentEvent(v.eventUid, v.uid, v.status, v.version, v.createdAt)];
    }

    /** The body of the loop over the two kinds of event. */
    method AdvanceEvent(c: Cycle, kind: EventKind) returns (versionUids: seq<nat>, intentUids: seq<nat>)
      modifies this`nextUid, this`events, this`versions, this`current, this`intents, this`deliveries
      ensures View() == EventStep(old(View()), c, kind)
      ensures old(versions) <= versions && versionUids == Map(VersionUid, Added(old(versions), versions))
      ensures old(intents) <= intents && intentUids == Map(IntentUid, Added(old(intents), intents))
    {
      hide Desired, IntentStep, EvidenceOf, VersionStep, EventStep, IntentKindOf;
      ghost var before := View();
      var key, active := EventKey(c.subject, kind), Desired(kind, c.risk, c.opportunity);
      var found := Lookup(current, key);
      var recurring := found.None? || found.value.status == Resolved || found.value.status == Invalidated;
      if !active && recurring {
        IdleStep(before, c, kind);
        return [], [];
      }
      var eventUid, version := nextUid, 1;
      if recurring {
        nextUid := nextUid + 1;
        InsertEvent(c, kind, eventUid);
      } else {
        eventUid, version := found.value.eventUid, found.value.version + 1;
      }
      assert View() == EventRowStep(before, c, kind);
      var v := EventVersion(
        nextUid, eventUid, version, if active then Live else Resolved,
        if !active then Ended else if recurring then Created else Changed,
        c.commitUid, c.stateUid, c.guardianUid, c.scoutUid, if active then EvidenceOf(c, kind) else {}, c.asOf);
      assert v == VersionOf(nextUid, EventUidOf(before, key), found, c, kind);
      BusyStep(before, c, kind);
      hide EventRowStep, VersionOf, EventUidOf;
      InsertVersion(key, v);
      VersionAppended(before, c, kind, v);
      ghost var written := View();
      intentUids := InsertIntents(c, IntentKindOf(kind, active), v);
      EH.IntentsLeaveEvents(written, c, IntentKindOf(kind, active), v, c.channels);
      versionUids := [v.uid];
    }

    /** Both kinds of event, Guardian's first. */
    method DecideEvents(c: Cycle) returns (versionUids: seq<nat>, intentUids: seq<nat>)
      modifies this`nextUid, this`events, this`versions, this`current, this`intents, this`deliveries
      ensures View() == EventsStep(old(View()), c)
      ensures versionUids == Map(VersionUid, Added(old(versions), versions))
      ensures intentUids == Map(IntentUid, Added(old(intents), intents))
    {
      hide EventStep, Map, Added;
      ghost var before := View();
      versionUids, intentUids := [], [];
      var kinds := [GuardianRisk, ScoutWatch];
      NothingAdded(before);
      for k := 0 to |kinds|
        invariant View() == EventsUpTo(before, c, k)
        invariant before.versions <= versions && before.intents <= intents
        invariant versionUids == Map(VersionUid, Added(before.versions, versions))
        invariant intentUids == Map(IntentUid, Added(before.intents, intents))
      {
        ghost var v, i := versions, intents;
        var moreVersions, moreIntents := AdvanceEvent(c, kinds[k]);
        AddedJoin(VersionUid, before.versions, v, versions);
        AddedJoin(IntentUid, before.intents, i, intents);
        versionUids, intentUids := versionUids + moreVersions, intentUids + moreIntents;
      }
    }

    method FindExisting(snapshotUid: string) returns (found: Option<(Fingerprint, CommitResult)>)
      ensures found == Existing(View(), snapshotUid)
    {
      hide CommitFor, VersionUids, IntentUids;
      var row := CommitFor(commits, snapshotUid);
      if row.None? {
        return None;
      }
      var c := row.value;
      var versionUids := SortBy(NatLeq, VersionUids(versions, c.uid));
      var intentUids := SortBy(NatLeq, IntentUids(intents, versions, c.uid));
      return Some((c.fingerprint, CommitResult(c.uid, c.stateUid, c.guardianUid, c.scoutUid, versionUids, intentUids)));
    }

    /** Guardian, Scout and the commit row, after the state was written. */
    method InsertAnalysis(x: Input, stateUid: nat, ghost before: Tables) returns (c: Cycle)
      requires stateUid == before.nextUid && View() == StateStep(before, x)
      modifies this`nextUid, this`guardians, this`scouts, this`commits
      ensures View() == AnalysisStep(before, x) && c == CycleOf(before, x)
    {
      hide StateStep, GuardianStep, ScoutStep, RiskOf, OpportunityOf, FingerprintOf, ChannelsOf, CountsOpportunities;
      var guardianUid, effect := InsertGuardian(x, stateUid);
      var scoutUid := InsertScout(x, stateUid, guardianUid, effect);
      c := Cycle(x.snapshot.subject, x.snapshot.asOf, nextUid, stateUid, guardianUid, scoutUid,
                 RiskOf(x), OpportunityOf(x), ChannelsOf(x.request.channels), x.generation);
      commits := commits
        + [CommitRow(nextUid, x.request.snapshotUid, stateUid, guardianUid, scoutUid, FingerprintOf(x.request),
                     x.snapshot.asOf)];
      nextUid := nextUid + 1;
    }

    method InsertAudit(x: Input, r: CommitResult)
      modifies this`nextUid, this`audits
      ensures View() == AuditStep(old(View()), x, r)
    {
      hide FingerprintOf;
      audits := audits
        + [Audit(nextUid, x.snapshot.subject, r.commitUid, FingerprintOf(x.request), r.versions, r.intents, x.snapshot.asOf)];
      nextUid := nextUid + 1;
    }

    /** The transaction: writes the whole commit, or refuses and writes nothing. */
    method WriteCommit(x: Input) returns (answer: Result<CommitResult, CommitError>)
      modifies this`nextUid, this`projections, this`evaluations, this`transitions, this`guardians, this`scouts,
               this`commits, this`events, this`versions, this`current, this`intents, this`deliveries, this`audits
      ensures StateRefusal(old(View()), x).Some? ==>
                answer == Err(StateRefusal(old(View()), x).value) && View() == old(View())
      ensures StateRefusal(old(View()), x).None? ==>
                answer == Ok(ResultOfCommit(old(View()), x)) && View() == CommitStep(old(View()), x)
    {
      hide StateRefusal, StateStep, AnalysisStep, EventsStep, CycleOf, AuditStep;
      ghost var before := View();
      var refused, stateUid := InsertState(x);
      if refused.Some? {
        return Err(refused.value);
      }
      var c := InsertAnalysis(x, stateUid, before);
      ghost var analysed := View();
      var versionUids, intentUids := DecideEvents(c);
      var r := CommitResult(c.commitUid, c.stateUid, c.guardianUid, c.scoutUid, versionUids, intentUids);
      assert r == ResultOfCommit(before, x);
      InsertAudit(x, r);
      return Ok(r);
    }

    /** Answers a request; a stored commit is answered again, and only a new one changes the tables. */
    method Commit(r: Request, w: World) returns (answer: Result<CommitResult, CommitError>)
      requires Valid()
      modifies this
      ensures Valid()
      ensures answer == Outcome(old(View()), r, w)
      ensures IsNew(old(View()), r, w) ==> log == old(log) + [InputOf(r, w)]
      ensures !IsNew(old(View()), r, w) ==> log == old(log) && View() == old(View())
    {
      hide RequestRefusal, CommitStep, ResultOfCommit, Existing, StateRefusal, FingerprintOf, Replay, Accepted,
           FactMetrics, Acceptable;
      ghost var before := View();
      var refused := RequestRefusal(r);
      if refused.Some? {
        return Err(refused.value);
      }
      if !w.evidence {
        return Err(GateRefused);
      }
      if r.snapshotUid !in w.snapshots || !w.snapshots[r.snapshotUid].sealed || !w.snapshots[r.snapshotUid].official {
        return Err(SnapshotUnusable);
      }
      if w.thresholds.None? || w.execution.None? {
        return Err(GateRefused);
      }
      var guardianFacts, guardianMetrics := CollectFacts(w.execution.value.guardian, GUARDIAN_CODES);
      var scoutFacts, scoutMetrics := CollectFacts(w.execution.value.scout, SCOUT_CODES);
      if guardianMetrics != Some(r.guardianMetrics) || scoutMetrics != Some(r.scoutMetrics) {
        return Err(GateRefused);
      }
      var existing := FindExisting(r.snapshotUid);
      if existing.Some? {
        if existing.value.0 != FingerprintOf(r) {
          return Err(DifferentCommit);
        }
        return Ok(existing.value.1);
      }
      var x := Input(r, w.snapshots[r.snapshotUid], guardianFacts + scoutFacts, w.thresholds.value, w.generation);
      assert x == InputOf(r, w);
      assert Refusal(r, w).None?;
      answer := WriteCommit(x);
      if answer.Ok? {
        NewIsAcceptable(before, r, w);
        ReplaySnoc(log, x);
        log := log + [x];
      }
    }
  }

  function EventsUpTo(t: Tables, c: Cycle, k: nat): Tables
    requires k <= 2
  {
    if k == 0 then t else EventStep(EventsUpTo(t, c, k - 1), c, if k == 1 then GuardianRisk else ScoutWatch)
  }

  lemma NothingAdded(t: Tables)
    ensures Map(VersionUid, Added(t.versions, t.versions)) == [] && Map(IntentUid, Added(t.intents, t.intents)) == []
  {
  }

  lemma AddedJoin<T>(uid: T -> nat, a: seq<T>, b: seq<T>, c: seq<T>)
    requires a <= b <= c
    ensures a <= c && Map(uid, Added(a, c)) == Map(uid, Added(a, b)) + Map(uid, Added(b, c))
  {
    assert c[|a|..] == b[|a|..] + c[|b|..];
    MapConcat(uid, b[|a|..], c[|b|..]);
  }

  lemma IdleStep(t: Tables, c: Cycle, kind: EventKind)
    requires Idle(t, c, kind)
    ensures EventStep(t, c, kind) == t && Map(VersionUid, Added(t.versions, t.versions)) == []
    ensures Map(IntentUid, Added(t.intents, t.intents)) == []
  {
  }

  lemma BusyStep(t: Tables, c: Cycle, kind: EventKind)
    requires !Idle(t, c, kind)
    ensures var key, t1 := EventKey(c.subject, kind), EventRowStep(t, c, kind);
            var v := VersionOf(t1.nextUid, EventUidOf(t, key), Lookup(t.current, key), c, kind);
            EventStep(t, c, kind)
            == IntentStep(VersionStep(t1, key, v), c, IntentKindOf(kind, Desired(kind, c.risk, c.opportunity)), v, c.channels)
  {
    hide VersionOf, IntentStep, VersionStep, EventRowStep, EventUidOf, Desired, IsLive, IntentKindOf;
  }

  lemma VersionAppended(t: Tables, c: Cycle, kind: EventKind, v: EventVersion)
    ensures var after := VersionStep(EventRowStep(t, c, kind), EventKey(c.subject, kind), v);
            && t.versions <= after.versions && Map(VersionUid, Added(t.versions, after.versions)) == [v.uid]
            && after.intents == t.intents
  {
    hide IsLive;
    NewRow(t.versions, v);
  }

  lemma NothingPut(t: Tables, c: Cycle, kind: IntentKind, v: EventVersion)
    ensures IntentStep(t, c, kind, v, c.channels[..0]) == t
    ensures Map(IntentUid, Added(t.intents, t.intents)) == []
  {
  }

  lemma PutNext(t: Tables, c: Cycle, kind: IntentKind, v: EventVersion, i: nat)
    requires i < |c.channels|
    ensures IntentStep(t, c, kind, v, c.channels[..i + 1])
            == IntentPut(IntentStep(t, c, kind, v, c.channels[..i]), c, kind, v, c.channels[i])
  {
    hide IntentPut;
    assert c.channels[..i + 1][..i] == c.channels[..i];
  }

  lemma AddedUid(before: seq<Intent>, intents: seq<Intent>, i: Intent)
    requires before <= intents
    ensures before <= intents + [i]
    ensures Map(IntentUid, Added(before, intents + [i])) == Map(IntentUid, Added(before, intents)) + [i.uid]
  {
    assert (intents + [i])[|before|..] == intents[|before|..] + [i];
    MapConcat(IntentUid, intents[|before|..], [i]);
  }

  // ---- retries

  /**
   * Repeating a request that a run accepted, however much later, is answered with the result the
   * first attempt returned, and it is not a new commit.
   */
  lemma RetryAnswersTheSame(log: seq<Input>, i: nat, r: Request, w: World)
    requires Accepted(log) && i < |log| && FingerprintOf(r) == FingerprintOf(log[i].request)
    requires Refusal(r, w).None?
    ensures Outcome(Replay(log), r, w) == Ok(ResultAt(log, i))
    ensures !IsNew(Replay(log), r, w)
  {
    hide Replay, Accepted, Refusal, Existing, StateRefusal, ResultAt, ResultOfCommit;
    ReadsBack(log, i);
  }

  /** A second commit of a snapshot with any other content is refused. */
  lemma OneCommitPerSnapshot(log: seq<Input>, i: nat, r: Request, w: World)
    requires Accepted(log) && i < |log| && r.snapshotUid == log[i].request.snapshotUid
    requires FingerprintOf(r) != FingerprintOf(log[i].request)
    ensures Outcome(Replay(log), r, w).Err? && !IsNew(Replay(log), r, w)
  {
    hide Replay, Accepted, Refusal, Existing, StateRefusal, ResultAt, ResultOfCommit, FingerprintOf;
    ReadsBack(log, i);
  }
}
