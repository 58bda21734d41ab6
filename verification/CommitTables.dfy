/** The rows an Analysis Commit writes, and each of its steps as a function of the tables. */
module CommitTables {
  import opened Wrappers
  import opened Sequences
  import opened Domain
  import opened Lifecycles
  import G = Guardian
  import S = Scout

  // ---- what a commit is given

  datatype Channel = InApp | Webhook | OtherChannel(name: string)

  datatype Provenance = Provenance(producerVersion: string, evidenceSha: string)

  datatype Request = Request(
    snapshotUid: string, availability: Availability, lifecycle: Option<Lifecycle>, expectedVersion: int,
    guardianMetrics: map<MetricCode, int>, scoutMetrics: map<MetricCode, int>,
    channels: seq<Channel>, provenance: Option<Provenance>)

  /** A snapshot with the quality that belongs to it. */
  datatype Snapshot = Snapshot(
    subject: string, official: bool, sealed: bool, health: Health, fitness: Fitness, asOf: int)

  datatype Fact = Fact(uid: string, code: MetricCode, value: int, hash: string)

  function FactCode(f: Fact): MetricCode { f.code }

  function FactValue(f: Fact): int { f.value }

  function FactUid(f: Fact): string { f.uid }

  /** A request that passed every check, with what the database adds to it. */
  datatype Input = Input(
    request: Request, snapshot: Snapshot, facts: seq<Fact>, thresholds: G.Thresholds, generation: nat)

  /** The requested channels, sorted and without repetition. */
  function ChannelsOf(channels: seq<Channel>): seq<Channel> {
    (if InApp in channels then [InApp] else []) + (if Webhook in channels then [Webhook] else [])
  }

  /** A canonical hash is injective, so it is represented by what it hashes. */
  datatype Fingerprint = Fingerprint(
    snapshotUid: string, availability: Availability, lifecycle: Option<Lifecycle>, expectedVersion: int,
    guardianMetrics: map<MetricCode, int>, scoutMetrics: map<MetricCode, int>,
    channels: seq<Channel>, provenance: Option<Provenance>)

  function FingerprintOf(r: Request): Fingerprint {
    Fingerprint(r.snapshotUid, r.availability, r.lifecycle, r.expectedVersion, r.guardianMetrics,
                r.scoutMetrics, ChannelsOf(r.channels), r.provenance)
  }

  // ---- what Guardian and Scout conclude from it

  function ValuesOf(facts: seq<Fact>): map<MetricCode, int> { Index(FactCode, FactValue, facts) }

  function UidsOf(facts: seq<Fact>): map<MetricCode, string> { Index(FactCode, FactUid, facts) }

  function SituationOf(x: Input): G.Situation {
    G.Situation(ValuesOf(x.facts), x.request.availability, x.snapshot.health, x.snapshot.fitness)
  }

  function RiskOf(x: Input): G.Decision {
    G.Decide(SituationOf(x), Some(x.thresholds), UidsOf(x.facts))
  }

  function OpportunityOf(x: Input): S.ScoutDecision {
    S.DecideScout(ValuesOf(x.facts), UidsOf(x.facts), x.thresholds, RiskOf(x).effect)
  }

  datatype EventKind = GuardianRisk | ScoutWatch

  /** Whether an event of this kind should be live after the commit. */
  predicate Desired(kind: EventKind, risk: G.Decision, opportunity: S.ScoutDecision) {
    match kind
    case GuardianRisk => risk.effect != G.Allow
    case ScoutWatch => opportunity.status == S.Active && !opportunity.suppressed
  }

  // ---- rows

  datatype EventKey = EventKey(subject: string, kind: EventKind)

  datatype EventStatus = Candidate | Live | Resolved | Invalidated

  datatype ChangeType = Created | Changed | Ended

  datatype IntentKind = Risk | Attention | Resolution

  datatype StateEvaluation = StateEvaluation(
    uid: nat, snapshotUid: string, subject: string, availability: Availability,
    lifecycle: Option<Lifecycle>, facts: seq<string>, createdAt: int)

  datatype GuardianRow = GuardianRow(
    uid: nat, stateUid: nat, subject: string, snapshotUid: string, effect: G.Effect, blocking: bool,
    severity: G.Severity, risks: seq<G.Finding>, createdAt: int)

  datatype ScoutRow = ScoutRow(
    uid: nat, guardianUid: nat, stateUid: nat, subject: string, snapshotUid: string,
    status: S.ScoutStatus, strength: S.Strength, suppressed: bool, effect: G.Effect,
    opportunities: seq<S.Opportunity>, createdAt: int)

  datatype CommitRow = CommitRow(
    uid: nat, snapshotUid: string, stateUid: nat, guardianUid: nat, scoutUid: nat,
    fingerprint: Fingerprint, committedAt: int)

  datatype MarketEvent = MarketEvent(uid: nat, key: EventKey, createdAt: int)

  datatype EventVersion = EventVersion(
    uid: nat, eventUid: nat, version: nat, status: EventStatus, change: ChangeType, commitUid: nat,
    stateUid: nat, guardianUid: nat, scoutUid: nat, evidence: set<string>, createdAt: int)

  datatype CurrentEvent = CurrentEvent(
    eventUid: nat, versionUid: nat, status: EventStatus, version: nat, updatedAt: int)

  /** What a notification says, frozen when it is written. */
  datatype Frozen = Frozen(
    asOf: int, guardianUid: nat, effect: G.Effect, blocking: bool, risks: seq<G.Finding>,
    scoutUid: nat, status: S.ScoutStatus, strength: S.Strength, suppressed: bool,
    tags: seq<S.Opportunity>, eventUid: nat, version: nat, eventStatus: EventStatus)

  datatype Intent = Intent(
    uid: nat, versionUid: nat, channel: Channel, kind: IntentKind, frozen: Frozen, createdAt: int,
    expiresAt: int, generation: nat)

  datatype DeliveryStatus = Pending | Processing | RetryWait | Delivered | Failed | Cancelled | Expired

  datatype Delivery = Delivery(
    status: DeliveryStatus, attempts: nat, nextAttemptAt: int, version: nat, updatedAt: int)

  datatype Audit = Audit(
    uid: nat, subject: string, commitUid: nat, fingerprint: Fingerprint, versions: seq<nat>,
    intents: seq<nat>, createdAt: int)

  /** The tables; `nextUid` is the next fresh identifier, and identifiers grow as they are drawn. */
  datatype Tables = Tables(
    nextUid: nat,
    projections: map<string, StateProjection>, evaluations: seq<StateEvaluation>,
    transitions: seq<Transition>,
    guardians: seq<GuardianRow>, scouts: seq<ScoutRow>, commits: seq<CommitRow>,
    events: seq<MarketEvent>, versions: seq<EventVersion>, current: map<EventKey, CurrentEvent>,
    intents: seq<Intent>, deliveries: map<nat, Delivery>, audits: seq<Audit>)

  function EmptyTables(): Tables {
    Tables(0, map[], [], [], [], [], [], [], [], map[], [], map[], [])
  }

  // ---- the state step

  function EvaluationPut(t: Tables, x: Input): Tables {
    t.(nextUid := t.nextUid + 1,
       evaluations := t.evaluations
         + [StateEvaluation(t.nextUid, x.request.snapshotUid, x.snapshot.subject, x.request.availability,
                            x.request.lifecycle, Map(FactUid, x.facts), x.snapshot.asOf)])
  }

  function TransitionPut(t: Tables, x: Input, previous: Option<Lifecycle>, evaluation: nat): Tables
    requires x.request.lifecycle.Some?
  {
    t.(nextUid := t.nextUid + 1,
       transitions := t.transitions
         + [Transition(t.nextUid, x.snapshot.subject, previous, x.request.lifecycle.value, evaluation, x.snapshot.asOf)])
  }

  function ProjectionPut(t: Tables, x: Input, current: Option<StateProjection>, evaluation: nat): Tables {
    t.(projections := t.projections[x.snapshot.subject :=
         NextProjection(current, x.request.availability, x.request.lifecycle, evaluation, x.snapshot.asOf)])
  }

  function StateStep(t: Tables, x: Input): Tables {
    var current := Lookup(t.projections, x.snapshot.subject);
    var evaluated := EvaluationPut(t, x);
    var moved :=
      if Moves(current, x.request.lifecycle) then TransitionPut(evaluated, x, Previous(current), t.nextUid)
      else evaluated;
    ProjectionPut(moved, x, current, t.nextUid)
  }

  // ---- Guardian, Scout and the commit row

  function GuardianStep(t: Tables, x: Input, stateUid: nat): Tables {
    var d := RiskOf(x);
    t.(nextUid := t.nextUid + 1,
       guardians := t.guardians
         + [GuardianRow(t.nextUid, stateUid, x.snapshot.subject, x.request.snapshotUid, d.effect, d.blocking,
                        d.severity, d.findings, x.snapshot.asOf)])
  }

  function ScoutStep(t: Tables, x: Input, stateUid: nat, guardianUid: nat): Tables {
    var d := OpportunityOf(x);
    t.(nextUid := t.nextUid + 1,
       scouts := t.scouts
         + [ScoutRow(t.nextUid, guardianUid, stateUid, x.snapshot.subject, x.request.snapshotUid, d.status,
                     d.strength, d.suppressed, RiskOf(x).effect, d.opportunities, x.snapshot.asOf)])
  }

  function CommitRowStep(t: Tables, x: Input, c: Cycle): Tables {
    t.(nextUid := t.nextUid + 1,
       commits := t.commits
         + [CommitRow(t.nextUid, x.request.snapshotUid, c.stateUid, c.guardianUid, c.scoutUid,
                      FingerprintOf(x.request), x.snapshot.asOf)])
  }

  // ---- the event step

  /** What the events of one commit share. */
  datatype Cycle = Cycle(
    subject: string, asOf: int, commitUid: nat, stateUid: nat, guardianUid: nat, scoutUid: nat,
    risk: G.Decision, opportunity: S.ScoutDecision, channels: seq<Channel>, generation: nat)

  predicate IsLive(current: Option<CurrentEvent>) {
    current.Some? && (current.value.status == Candidate || current.value.status == Live)
  }

  function RiskEvidence(risks: seq<G.Finding>): set<string> {
    set f | f in risks && f.fact.Some? :: f.fact.value
  }

  function OpportunityEvidence(tags: seq<S.Opportunity>): set<string> {
    set o | o in tags :: o.fact
  }

  function EvidenceOf(c: Cycle, kind: EventKind): set<string> {
    if kind == GuardianRisk then RiskEvidence(c.risk.findings) else OpportunityEvidence(c.opportunity.opportunities)
  }

  function IntentKindOf(kind: EventKind, active: bool): IntentKind {
    if !active then Resolution else if kind == GuardianRisk then Risk else Attention
  }

  function FrozenOf(c: Cycle, v: EventVersion): Frozen {
    Frozen(c.asOf, c.guardianUid, c.risk.effect, c.risk.blocking, c.risk.findings,
           c.scoutUid, c.opportunity.status, c.opportunity.strength, c.opportunity.suppressed,
           c.opportunity.opportunities, v.eventUid, v.version, v.status)
  }

  function IntentOf(uid: nat, c: Cycle, kind: IntentKind, v: EventVersion, channel: Channel): Intent {
    Intent(uid, v.uid, channel, kind, FrozenOf(c, v), c.asOf, c.asOf + 5 * MINUTE, c.generation)
  }

  /** One pending intent on one channel. */
  function IntentPut(t: Tables, c: Cycle, kind: IntentKind, v: EventVersion, channel: Channel): Tables {
    t.(nextUid := t.nextUid + 1,
       intents := t.intents + [IntentOf(t.nextUid, c, kind, v, channel)],
       deliveries := t.deliveries[t.nextUid := Delivery(Pending, 0, c.asOf, 1, c.asOf)])
  }

  /** One on each of the given channels. */
  function IntentStep(t: Tables, c: Cycle, kind: IntentKind, v: EventVersion, channels: seq<Channel>): Tables {
    if channels == [] then t
    else IntentPut(IntentStep(t, c, kind, v, channels[..|channels| - 1]), c, kind, v, channels[|channels| - 1])
  }

  /** The version the commit adds to an event of this kind. */
  function VersionOf(uid: nat, eventUid: nat, current: Option<CurrentEvent>, c: Cycle, kind: EventKind): EventVersion {
    var active := Desired(kind, c.risk, c.opportunity);
    EventVersion(
      uid, eventUid, if IsLive(current) then current.value.version + 1 else 1,
      if active then Live else Resolved,
      if !active then Ended else if IsLive(current) then Changed else Created,
      c.commitUid, c.stateUid, c.guardianUid, c.scoutUid,
      if active then EvidenceOf(c, kind) else {}, c.asOf)
  }

  /** A new event when one should be live and none is. */
  function EventRowStep(t: Tables, c: Cycle, kind: EventKind): Tables {
    var key := EventKey(c.subject, kind);
    if IsLive(Lookup(t.current, key)) then t
    else t.(nextUid := t.nextUid + 1, events := t.events + [MarketEvent(t.nextUid, key, c.asOf)])
  }

  function EventUidOf(t: Tables, key: EventKey): nat {
    if IsLive(Lookup(t.current, key)) then t.current[key].eventUid else t.nextUid
  }

  /** The version row and the projection that points to it. */
  function VersionStep(t: Tables, key: EventKey, v: EventVersion): Tables {
    t.(nextUid := t.nextUid + 1, versions := t.versions + [v],
       current := t.current[key := CurrentEvent(v.eventUid, v.uid, v.status, v.version, v.createdAt)])
  }

  /** Nothing to do: no event of this kind is live, and none should be. */
  predicate Idle(t: Tables, c: Cycle, kind: EventKind) {
    !Desired(kind, c.risk, c.opportunity) && !IsLive(Lookup(t.current, EventKey(c.subject, kind)))
  }

  /** One kind of event advanced by one commit. */
  function EventStep(t: Tables, c: Cycle, kind: EventKind): Tables {
    if Idle(t, c, kind) then t
    else
      var key := EventKey(c.subject, kind);
      var current := Lookup(t.current, key);
      var t1 := EventRowStep(t, c, kind);
      var v := VersionOf(t1.nextUid, EventUidOf(t, key), current, c, kind);
      IntentStep(VersionStep(t1, key, v), c, IntentKindOf(kind, Desired(kind, c.risk, c.opportunity)), v, c.channels)
  }

  function EventsStep(t: Tables, c: Cycle): Tables {
    EventStep(EventStep(t, c, GuardianRisk), c, ScoutWatch)
  }

  // ---- the whole commit

  function VersionUid(v: EventVersion): nat { v.uid }

  function IntentUid(i: Intent): nat { i.uid }

  function Added<T>(before: seq<T>, after: seq<T>): seq<T> {
    if |before| <= |after| then after[|before|..] else []
  }

  function CycleOf(t: Tables, x: Input): Cycle {
    var uid := StateStep(t, x).nextUid;
    Cycle(x.snapshot.subject, x.snapshot.asOf, uid + 2, t.nextUid, uid, uid + 1,
          RiskOf(x), OpportunityOf(x), ChannelsOf(x.request.channels), x.generation)
  }

  /** Everything up to the events. */
  function AnalysisStep(t: Tables, x: Input): Tables {
    var c := CycleOf(t, x);
    CommitRowStep(ScoutStep(GuardianStep(StateStep(t, x), x, c.stateUid), x, c.stateUid, c.guardianUid), x, c)
  }

  datatype CommitResult = CommitResult(
    commitUid: nat, stateUid: nat, guardianUid: nat, scoutUid: nat, versions: seq<nat>, intents: seq<nat>)

  function ResultOf(c: Cycle, before: Tables, after: Tables): CommitResult {
    CommitResult(c.commitUid, c.stateUid, c.guardianUid, c.scoutUid,
                 Map(VersionUid, Added(before.versions, after.versions)),
                 Map(IntentUid, Added(before.intents, after.intents)))
  }

  function AuditStep(t: Tables, x: Input, r: CommitResult): Tables {
    t.(nextUid := t.nextUid + 1,
       audits := t.audits
         + [Audit(t.nextUid, x.snapshot.subject, r.commitUid, FingerprintOf(x.request), r.versions, r.intents,
                  x.snapshot.asOf)])
  }

  function ResultOfCommit(t: Tables, x: Input): CommitResult {
    var c, analysed := CycleOf(t, x), AnalysisStep(t, x);
    ResultOf(c, analysed, EventsStep(analysed, c))
  }

  function CommitStep(t: Tables, x: Input): Tables {
    AuditStep(EventsStep(AnalysisStep(t, x), CycleOf(t, x)), x, ResultOfCommit(t, x))
  }

  // ---- runs

  /** What a commit must find in the tables to be accepted. */
  predicate Acceptable(t: Tables, x: Input) {
    var current := Lookup(t.projections, x.snapshot.subject);
    && (x.request.availability == Available <==> x.request.lifecycle.Some?)
    && x.facts != []
    && ActualVersion(current) == x.request.expectedVersion
    && !IllegalMove(Previous(current), x.request.lifecycle)
    && ChannelsOf(x.request.channels) != []
    && (forall c <- t.commits :: c.snapshotUid != x.request.snapshotUid)
  }

  /** The tables after the accepted commits of a run. */
  function Replay(log: seq<Input>): Tables {
    if log == [] then EmptyTables() else CommitStep(Replay(log[..|log| - 1]), log[|log| - 1])
  }

  predicate Accepted(log: seq<Input>) {
    log == [] || (Accepted(log[..|log| - 1]) && Acceptable(Replay(log[..|log| - 1]), log[|log| - 1]))
  }

  lemma ReplaySnoc(log: seq<Input>, x: Input)
    ensures Replay(log + [x]) == CommitStep(Replay(log), x)
    ensures Accepted(log + [x]) <==> Accepted(log) && Acceptable(Replay(log), x)
  {
    hide CommitStep, Acceptable;
    assert (log + [x])[..|log|] == log;
  }

  /** Every run passes through accepted runs only. */
  lemma {:induction false} Prefix(log: seq<Input>, n: nat)
    requires Accepted(log) && n <= |log|
    ensures Accepted(log[..n])
  {
    hide CommitStep, Acceptable, Replay;
    if n < |log| {
      Prefix(log[..|log| - 1], n);
      assert log[..|log| - 1][..n] == log[..n];
    } else {
      assert log[..n] == log;
    }
  }
}
