/** Every version of an event is announced once on each channel of its commit, and nothing else is. */
module Notifications {
  import opened Wrappers
  import opened Sequences
  import opened Domain
  import opened Lifecycles
  import opened CommitTables
  import opened EventHistory
  import G = Guardian
  import S = Scout

  function IntentsFor(intents: seq<Intent>, versionUid: nat): seq<Intent> {
    if intents == [] then []
    else
      var last := intents[|intents| - 1];
      IntentsFor(intents[..|intents| - 1], versionUid) + (if last.versionUid == versionUid then [last] else [])
  }

  lemma IntentsForSnoc(intents: seq<Intent>, i: Intent, versionUid: nat)
    ensures IntentsFor(intents + [i], versionUid)
            == IntentsFor(intents, versionUid) + (if i.versionUid == versionUid then [i] else [])
  {
    assert (intents + [i])[..|intents|] == intents;
  }

  lemma {:induction false} IntentsForMembers(intents: seq<Intent>, versionUid: nat)
    ensures forall i :: i in IntentsFor(intents, versionUid) <==> i in intents && i.versionUid == versionUid
  {
    if intents != [] {
      IntentsForMembers(intents[..|intents| - 1], versionUid);
      assert intents == intents[..|intents| - 1] + [intents[|intents| - 1]];
    }
  }

  /** i announces v: same event, same version, five minutes (in microseconds) to live. */
  predicate Announces(i: Intent, v: EventVersion, kind: EventKind) {
    && i.versionUid == v.uid
    && i.kind == (if v.status != Live then Resolution else if kind == GuardianRisk then Risk else Attention)
    && i.createdAt == v.createdAt && i.expiresAt == v.createdAt + 300_000_000 && i.frozen.asOf == v.createdAt
    && i.frozen.eventUid == v.eventUid && i.frozen.version == v.version && i.frozen.eventStatus == v.status
  }

  predicate PendingIn(deliveries: map<nat, Delivery>, i: Intent) {
    i.uid in deliveries && deliveries[i.uid] == Delivery(Pending, 0, i.createdAt, 1, i.createdAt)
  }

  /** One pending intent for v on each of the channels, in their order, and no other. */
  ghost predicate AnnouncedOn(
    intents: seq<Intent>, deliveries: map<nat, Delivery>, v: EventVersion, kind: EventKind, channels: seq<Channel>)
  {
    var mine := IntentsFor(intents, v.uid);
    && |mine| == |channels|
    && forall j :: 0 <= j < |mine| ==>
         mine[j].channel == channels[j] && Announces(mine[j], v, kind) && PendingIn(deliveries, mine[j])
  }

  /** v is announced on the channels of its commit, in the manner of its event's kind. */
  ghost predicate Announced(t: Tables, v: EventVersion) {
    exists c <- t.commits, e <- t.events :: c.uid == v.commitUid && e.uid == v.eventUid
      && AnnouncedOn(t.intents, t.deliveries, v, e.key.kind, c.fingerprint.channels)
  }

  ghost predicate Numbered(t: Tables) {
    && (forall v <- t.versions :: v.uid < t.nextUid)
    && (forall i <- t.intents :: i.uid < t.nextUid && i.versionUid < t.nextUid)
  }

  ghost predicate NoOrphans(t: Tables) {
    forall i <- t.intents :: exists v <- t.versions :: v.uid == i.versionUid
  }

  ghost predicate AllAnnounced(t: Tables) {
    Numbered(t) && NoOrphans(t) && forall v <- t.versions :: Announced(t, v)
  }

  // ---- the intents of one version

  /** Later intents leave the announcement of v alone. */
  ghost predicate Untouched(t: Tables, after: Tables, versionUid: nat) {
    && IntentsFor(after.intents, versionUid) == IntentsFor(t.intents, versionUid)
    && forall uid <- t.deliveries :: uid < t.nextUid ==> uid in after.deliveries && after.deliveries[uid] == t.deliveries[uid]
  }

  lemma {:induction false} IntentStepKeeps(
      t: Tables, c: Cycle, kind: IntentKind, v: EventVersion, channels: seq<Channel>, other: nat)
    requires other != v.uid
    ensures Untouched(t, IntentStep(t, c, kind, v, channels), other)
    ensures t.nextUid <= IntentStep(t, c, kind, v, channels).nextUid
  {
    hide FrozenOf;
    if channels != [] {
      var before := IntentStep(t, c, kind, v, channels[..|channels| - 1]);
      IntentStepKeeps(t, c, kind, v, channels[..|channels| - 1], other);
      IntentsForSnoc(before.intents, IntentOf(before.nextUid, c, kind, v, channels[|channels| - 1]), other);
    }
  }

  lemma FrozenFields(uid: nat, c: Cycle, kind: EventKind, v: EventVersion, channel: Channel)
    requires v.createdAt == c.asOf
    ensures Announces(IntentOf(uid, c, IntentKindOf(kind, v.status == Live), v, channel), v, kind)
  {
  }

  lemma {:induction false} IntentStepAnnounces(
      t: Tables, c: Cycle, kind: EventKind, v: EventVersion, channels: seq<Channel>)
    requires IntentsFor(t.intents, v.uid) == [] && v.createdAt == c.asOf && v.uid < t.nextUid
    requires forall i <- t.intents :: i.uid < t.nextUid && i.versionUid < t.nextUid
    ensures var after := IntentStep(t, c, IntentKindOf(kind, v.status == Live), v, channels);
            && AnnouncedOn(after.intents, after.deliveries, v, kind, channels)
            && t.nextUid <= after.nextUid
            && (forall i <- after.intents :: i.uid < after.nextUid && i.versionUid < after.nextUid)
            && (forall i <- after.intents :: i in t.intents || i.versionUid == v.uid)
  {
    hide FrozenOf, Announces, IntentsFor, IntentKindOf;
    if channels != [] {
      var before := IntentStep(t, c, IntentKindOf(kind, v.status == Live), v, channels[..|channels| - 1]);
      IntentStepAnnounces(t, c, kind, v, channels[..|channels| - 1]);
      var last := IntentOf(before.nextUid, c, IntentKindOf(kind, v.status == Live), v, channels[|channels| - 1]);
      FrozenFields(before.nextUid, c, kind, v, channels[|channels| - 1]);
      IntentsForSnoc(before.intents, last, v.uid);
      IntentsForMembers(before.intents, v.uid);
    }
  }

  lemma StaysAnnounced(t: Tables, after: Tables, v: EventVersion)
    requires Numbered(t) && Announced(t, v) && Untouched(t, after, v.uid)
    requires t.commits <= after.commits && t.events <= after.events
    ensures Announced(after, v)
  {
    var c, e :| c in t.commits && e in t.events && c.uid == v.commitUid && e.uid == v.eventUid
      && AnnouncedOn(t.intents, t.deliveries, v, e.key.kind, c.fingerprint.channels);
    hide Announces;
    IntentsForMembers(t.intents, v.uid);
    assert c in after.commits && e in after.events;
    assert AnnouncedOn(after.intents, after.deliveries, v, e.key.kind, c.fingerprint.channels);
  }

  lemma {:induction false} FreshVersion(intents: seq<Intent>, versionUid: nat)
    requires forall i <- intents :: i.versionUid < versionUid
    ensures IntentsFor(intents, versionUid) == []
  {
    if intents != [] {
      assert intents[|intents| - 1] in intents;
      FreshVersion(intents[..|intents| - 1], versionUid);
    }
  }

  // ---- one event step

  ghost predicate HasCommit(t: Tables, c: Cycle) {
    exists row <- t.commits :: row.uid == c.commitUid && row.fingerprint.channels == c.channels
  }

  function VersionAdded(t: Tables, c: Cycle, kind: EventKind): Tables {
    VersionStep(EventRowStep(t, c, kind), EventKey(c.subject, kind), NewVersion(t, c, kind))
  }

  lemma VersionAddedFields(t: Tables, c: Cycle, kind: EventKind)
    ensures var v, after := NewVersion(t, c, kind), VersionAdded(t, c, kind);
            && t.nextUid <= v.uid < after.nextUid && v.createdAt == c.asOf && v.commitUid == c.commitUid
            && v.eventUid == EventUidOf(t, EventKey(c.subject, kind))
            && (v.status == Live <==> Desired(kind, c.risk, c.opportunity))
            && after.commits == t.commits && after.versions == t.versions + [v]
            && after.intents == t.intents && after.deliveries == t.deliveries
            && t.events <= after.events && after.events == EventRowStep(t, c, kind).events
  {
    hide Desired, EvidenceOf, IsLive;
  }

  lemma NewVersionAnnounced(t: Tables, c: Cycle, kind: EventKind, after: Tables)
    requires WellFormed(t) && HasCommit(t, c)
    requires after.commits == t.commits && after.events == EventRowStep(t, c, kind).events
    requires AnnouncedOn(after.intents, after.deliveries, NewVersion(t, c, kind), kind, c.channels)
    ensures Announced(after, NewVersion(t, c, kind))
  {
    VersionAddedFields(t, c, kind);
    OwnEvent(t, c, kind);
    hide WellFormed, NewVersion, EventRowStep, AnnouncedOn, EventUidOf;
    var v, key := NewVersion(t, c, kind), EventKey(c.subject, kind);
    var e :| e in after.events && e.uid == v.eventUid && e.key == key;
    var row :| row in after.commits && row.uid == c.commitUid && row.fingerprint.channels == c.channels;
    assert AnnouncedOn(after.intents, after.deliveries, v, e.key.kind, row.fingerprint.channels);
  }

  lemma EventStepIs(t: Tables, c: Cycle, kind: EventKind)
    requires !Idle(t, c, kind)
    ensures var v := NewVersion(t, c, kind);
            EventStep(t, c, kind)
            == IntentStep(VersionAdded(t, c, kind), c, IntentKindOf(kind, v.status == Live), v, c.channels)
  {
    VersionAddedFields(t, c, kind);
    hide Desired, IsLive, VersionOf;
  }

  lemma EventStepIntents(t: Tables, c: Cycle, kind: EventKind)
    requires Numbered(t) && !Idle(t, c, kind)
    ensures var v, after := NewVersion(t, c, kind), EventStep(t, c, kind);
            && v.uid < after.nextUid && t.nextUid <= after.nextUid && v.commitUid == c.commitUid
            && after.versions == t.versions + [v] && after.commits == t.commits
            && after.events == EventRowStep(t, c, kind).events && t.events <= after.events
            && AnnouncedOn(after.intents, after.deliveries, v, kind, c.channels)
            && (forall i <- after.intents :: i.uid < after.nextUid && i.versionUid < after.nextUid)
            && (forall i <- after.intents :: i in t.intents || i.versionUid == v.uid)
  {
    var v, t2 := NewVersion(t, c, kind), VersionAdded(t, c, kind);
    EventStepIs(t, c, kind);
    VersionAddedFields(t, c, kind);
    var k := IntentKindOf(kind, v.status == Live);
    hide NewVersion, VersionAdded, EventStep, Idle, AnnouncedOn, IntentKindOf, IntentStep, EventRowStep, EventUidOf,
         Desired;
    FreshVersion(t2.intents, v.uid);
    IntentStepAnnounces(t2, c, kind, v, c.channels);
    IntentsLeaveEvents(t2, c, k, v, c.channels);
    IntentsLeaveCommits(t2, c, k, v, c.channels);
  }

  lemma EventStepKeepsOthers(t: Tables, c: Cycle, kind: EventKind, w: EventVersion)
    requires Numbered(t) && !Idle(t, c, kind) && w in t.versions
    ensures Untouched(t, EventStep(t, c, kind), w.uid)
  {
    var v, t2 := NewVersion(t, c, kind), VersionAdded(t, c, kind);
    EventStepIs(t, c, kind);
    VersionAddedFields(t, c, kind);
    var k := IntentKindOf(kind, v.status == Live);
    hide NewVersion, VersionAdded, EventStep, Idle, IntentKindOf, IntentStep, EventRowStep, EventUidOf, Desired,
         Untouched;
    IntentStepKeeps(t2, c, k, v, c.channels, w.uid);
    OnlyIntentsDiffer(t, t2, EventStep(t, c, kind), w.uid);
  }

  lemma EventStepAnnounces(t: Tables, c: Cycle, kind: EventKind)
    requires WellFormed(t) && AllAnnounced(t) && HasCommit(t, c)
    ensures AllAnnounced(EventStep(t, c, kind)) && HasCommit(EventStep(t, c, kind), c)
  {
    hide WellFormed, Announced, EventStep, NewVersion, EventRowStep, Untouched, AnnouncedOn;
    if Idle(t, c, kind) {
      assert EventStep(t, c, kind) == t by { StaysIdle(t, c, kind); }
    } else {
      hide Idle;
      var v, after := NewVersion(t, c, kind), EventStep(t, c, kind);
      EventStepIntents(t, c, kind);
      NewVersionAnnounced(t, c, kind, after);
      forall w | w in after.versions ensures Announced(after, w) {
        if w != v {
          EventStepKeepsOthers(t, c, kind, w);
          StaysAnnounced(t, after, w);
        }
      }
      OrphansStayAway(t, after, v);
    }
  }

  lemma StaysIdle(t: Tables, c: Cycle, kind: EventKind)
    requires Idle(t, c, kind)
    ensures EventStep(t, c, kind) == t
  {
  }

  lemma OrphansStayAway(t: Tables, after: Tables, v: EventVersion)
    requires NoOrphans(t) && after.versions == t.versions + [v]
    requires forall i <- after.intents :: i in t.intents || i.versionUid == v.uid
    ensures NoOrphans(after)
  {
    forall i | i in after.intents ensures exists w <- after.versions :: w.uid == i.versionUid {
      if i in t.intents {
        var w :| w in t.versions && w.uid == i.versionUid;
        assert w in after.versions;
      } else {
        assert v in after.versions;
      }
    }
  }

  lemma {:induction false} IntentsLeaveCommits(
      t: Tables, c: Cycle, kind: IntentKind, v: EventVersion, channels: seq<Channel>)
    ensures IntentStep(t, c, kind, v, channels).commits == t.commits
  {
    if channels != [] { IntentsLeaveCommits(t, c, kind, v, channels[..|channels| - 1]); }
  }

  lemma OnlyIntentsDiffer(t: Tables, t2: Tables, after: Tables, versionUid: nat)
    requires Untouched(t2, after, versionUid)
    requires t2.intents == t.intents && t2.deliveries == t.deliveries && t.nextUid <= t2.nextUid
    ensures Untouched(t, after, versionUid)
  {
  }

  // ---- runs

  /** Steps before and after the events: more commits, nothing announced or unannounced. */
  ghost predicate SameNotices(a: Tables, b: Tables) {
    && SameEvents(a, b) && a.commits <= b.commits && a.intents == b.intents && a.deliveries == b.deliveries
  }

  lemma SameNoticesAnnounced(a: Tables, b: Tables)
    requires SameNotices(a, b) && AllAnnounced(a)
    ensures AllAnnounced(b)
  {
    hide Announced;
    forall v | v in b.versions ensures Announced(b, v) { StaysAnnounced(a, b, v); }
  }

  lemma AnalysisLeavesNotices(t: Tables, x: Input)
    ensures SameNotices(t, AnalysisStep(t, x)) && HasCommit(AnalysisStep(t, x), CycleOf(t, x))
  {
    hide RiskOf, OpportunityOf, ChannelsOf, Moves, Previous, NextProjection;
    var after, c := AnalysisStep(t, x), CycleOf(t, x);
    assert after.commits[|t.commits|].uid == c.commitUid;
  }

  lemma AuditLeavesNotices(t: Tables, x: Input, r: CommitResult)
    ensures SameNotices(t, AuditStep(t, x, r))
  {
    hide FingerprintOf;
  }

  lemma CommitStepAnnounces(t: Tables, x: Input)
    requires WellFormed(t) && AllAnnounced(t)
    ensures AllAnnounced(CommitStep(t, x))
  {
    hide WellFormed, AllAnnounced, HasCommit, SameNotices, AnalysisStep, AuditStep, EventStep, CycleOf, ResultOfCommit;
    var c, t0 := CycleOf(t, x), AnalysisStep(t, x);
    AnalysisLeavesNotices(t, x);
    AnalysisLeavesEvents(t, x);
    SameEventsWellFormed(t, t0);
    SameNoticesAnnounced(t, t0);
    EventStepAnnounces(t0, c, GuardianRisk);
    EventStepWellFormed(t0, c, GuardianRisk);
    EventStepAnnounces(EventStep(t0, c, GuardianRisk), c, ScoutWatch);
    AuditLeavesNotices(EventsStep(t0, c), x, ResultOfCommit(t, x));
    SameNoticesAnnounced(EventsStep(t0, c), CommitStep(t, x));
  }

  lemma EventStepWellFormed(t: Tables, c: Cycle, kind: EventKind)
    requires WellFormed(t)
    ensures WellFormed(EventStep(t, c, kind))
  {
    hide WellFormed;
    if !Idle(t, c, kind) { EventStepExtends(t, c, kind, EventKey(c.subject, kind)); }
  }

  /** In every run each version has exactly one pending intent per channel, and every intent a version. */
  lemma {:induction false} NotificationsOfRun(log: seq<Input>)
    ensures AllAnnounced(Replay(log))
  {
    if log != [] {
      hide CommitStep, AllAnnounced, WellFormed, KeyHistory;
      var before, x := log[..|log| - 1], log[|log| - 1];
      NotificationsOfRun(before);
      EventTablesOfRun(before, EventKey(x.snapshot.subject, GuardianRisk));
      CommitStepAnnounces(Replay(before), x);
    }
  }

  // ---- what an ATTENTION notice may say

  /** An opportunity is only announced unblocked and with at least three tags. */
  predicate Restrained(i: Intent) {
    i.kind == Attention ==>
      !i.frozen.blocking && !G.Blocks(i.frozen.effect) && |i.frozen.tags| >= 3 && !i.frozen.suppressed
  }

  ghost predicate AllRestrained(t: Tables) { forall i <- t.intents :: Restrained(i) }

  ghost predicate Consistent(c: Cycle) {
    && c.risk.blocking == G.Blocks(c.risk.effect)
    && c.opportunity.suppressed == G.Blocks(c.risk.effect)
    && (c.opportunity.status == S.Active <==> |c.opportunity.opportunities| >= 3)
  }

  lemma CycleConsistent(t: Tables, x: Input)
    ensures Consistent(CycleOf(t, x))
  {
    hide StateStep, ChannelsOf, S.ScoutMatches, S.OpportunitiesOf, G.CountingRules, G.EffectsOf, G.FindingsOf,
         SituationOf, ValuesOf, UidsOf;
  }

  lemma {:induction false} IntentsRestrained(
      t: Tables, c: Cycle, kind: EventKind, v: EventVersion, channels: seq<Channel>)
    requires AllRestrained(t) && Consistent(c)
    ensures AllRestrained(IntentStep(t, c, IntentKindOf(kind, Desired(kind, c.risk, c.opportunity)), v, channels))
  {
    if channels != [] { IntentsRestrained(t, c, kind, v, channels[..|channels| - 1]); }
  }

  lemma EventStepRestrained(t: Tables, c: Cycle, kind: EventKind)
    requires AllRestrained(t) && Consistent(c)
    ensures AllRestrained(EventStep(t, c, kind))
  {
    if !Idle(t, c, kind) {
      VersionAddedFields(t, c, kind);
      var v, t2 := NewVersion(t, c, kind), VersionAdded(t, c, kind);
      EventStepIs(t, c, kind);
      IntentsRestrained(t2, c, kind, v, c.channels);
    }
  }

  /** Protection first: in every run no ATTENTION notice is frozen under a blocking effect. */
  lemma {:induction false} AttentionOfRun(log: seq<Input>)
    ensures AllRestrained(Replay(log))
  {
    if log != [] {
      hide RiskOf, OpportunityOf, Restrained, EventStep, Consistent, FingerprintOf, ChannelsOf, Moves, Previous,
           NextProjection;
      var before, x := log[..|log| - 1], log[|log| - 1];
      AttentionOfRun(before);
      var t := Replay(before);
      CycleConsistent(t, x);
      AnalysisLeavesNotices(t, x);
      var t0, c := AnalysisStep(t, x), CycleOf(t, x);
      EventStepRestrained(t0, c, GuardianRisk);
      EventStepRestrained(EventStep(t0, c, GuardianRisk), c, ScoutWatch);
    }
  }

  // ---- a notice says what the tables say

  /** The Guardian and Scout rows of the commit that the cycle is about. */
  ghost predicate HasRows(t: Tables, c: Cycle) {
    && (exists g <- t.guardians :: g.uid == c.guardianUid && g.effect == c.risk.effect
          && g.blocking == c.risk.blocking && g.risks == c.risk.findings)
    && (exists s <- t.scouts :: s.uid == c.scoutUid && s.guardianUid == c.guardianUid
          && s.status == c.opportunity.status && s.strength == c.opportunity.strength
          && s.suppressed == c.opportunity.suppressed && s.opportunities == c.opportunity.opportunities)
  }

  predicate SaysGuardian(f: Frozen, g: GuardianRow) {
    f.guardianUid == g.uid && f.effect == g.effect && f.blocking == g.blocking && f.risks == g.risks
  }

  predicate SaysScout(f: Frozen, s: ScoutRow) {
    && f.scoutUid == s.uid && f.guardianUid == s.guardianUid && f.status == s.status && f.strength == s.strength
    && f.suppressed == s.suppressed && f.tags == s.opportunities
  }

  /** What the intent froze is what the Guardian and Scout rows of its version hold. */
  ghost predicate Truthful(t: Tables, i: Intent) {
    && (exists v <- t.versions :: v.uid == i.versionUid && v.guardianUid == i.frozen.guardianUid
          && v.scoutUid == i.frozen.scoutUid && v.eventUid == i.frozen.eventUid)
    && (exists g <- t.guardians :: SaysGuardian(i.frozen, g))
    && (exists s <- t.scouts :: SaysScout(i.frozen, s))
  }

  ghost predicate AllTruthful(t: Tables) { forall i <- t.intents :: Truthful(t, i) }

  /** Rows are only added. */
  ghost predicate MoreRows(a: Tables, b: Tables) {
    a.versions <= b.versions && a.guardians <= b.guardians && a.scouts <= b.scouts
  }

  lemma TruthfulForever(a: Tables, b: Tables, i: Intent)
    requires MoreRows(a, b) && Truthful(a, i)
    ensures Truthful(b, i)
  {
    var v :| v in a.versions && v.uid == i.versionUid && v.guardianUid == i.frozen.guardianUid
      && v.scoutUid == i.frozen.scoutUid && v.eventUid == i.frozen.eventUid;
    var g :| g in a.guardians && SaysGuardian(i.frozen, g);
    var s :| s in a.scouts && SaysScout(i.frozen, s);
    assert v in b.versions && g in b.guardians && s in b.scouts;
  }

  lemma NewIntentTruthful(t: Tables, c: Cycle, kind: IntentKind, v: EventVersion, uid: nat, channel: Channel)
    requires HasRows(t, c) && v in t.versions && v.guardianUid == c.guardianUid && v.scoutUid == c.scoutUid
    ensures Truthful(t, IntentOf(uid, c, kind, v, channel))
  {
    var i := IntentOf(uid, c, kind, v, channel);
    var g :| g in t.guardians && g.uid == c.guardianUid && g.effect == c.risk.effect
      && g.blocking == c.risk.blocking && g.risks == c.risk.findings;
    assert SaysGuardian(i.frozen, g);
    var s :| s in t.scouts && s.uid == c.scoutUid && s.guardianUid == c.guardianUid
      && s.status == c.opportunity.status && s.strength == c.opportunity.strength
      && s.suppressed == c.opportunity.suppressed && s.opportunities == c.opportunity.opportunities;
    assert SaysScout(i.frozen, s);
  }

  lemma {:induction false} IntentsTruthful(
      t: Tables, c: Cycle, kind: IntentKind, v: EventVersion, channels: seq<Channel>)
    requires AllTruthful(t) && HasRows(t, c)
    requires v in t.versions && v.guardianUid == c.guardianUid && v.scoutUid == c.scoutUid
    ensures var after := IntentStep(t, c, kind, v, channels);
            AllTruthful(after) && MoreRows(t, after) && after.versions == t.versions && HasRows(after, c)
  {
    hide Truthful, HasRows, IntentOf;
    if channels != [] {
      var before := IntentStep(t, c, kind, v, channels[..|channels| - 1]);
      var after := IntentStep(t, c, kind, v, channels);
      IntentsTruthful(t, c, kind, v, channels[..|channels| - 1]);
      NewIntentTruthful(before, c, kind, v, before.nextUid, channels[|channels| - 1]);
      SameRowsTruthful(before, after, c);
      forall i | i in after.intents ensures Truthful(after, i) {
        if i in before.intents { TruthfulForever(before, after, i); } else {
          TruthfulForever(before, after, IntentOf(before.nextUid, c, kind, v, channels[|channels| - 1]));
        }
      }
    }
  }

  lemma SameRowsTruthful(a: Tables, b: Tables, c: Cycle)
    requires a.guardians == b.guardians && a.scouts == b.scouts && HasRows(a, c)
    ensures HasRows(b, c)
  {
  }

  lemma EventStepTruthful(t: Tables, c: Cycle, kind: EventKind)
    requires AllTruthful(t) && HasRows(t, c)
    ensures var after := EventStep(t, c, kind); AllTruthful(after) && HasRows(after, c) && MoreRows(t, after)
  {
    hide Truthful, HasRows, EventStep, IntentKindOf;
    if Idle(t, c, kind) {
      StaysIdle(t, c, kind);
    } else {
      hide Idle;
      var v, t2 := NewVersion(t, c, kind), VersionAdded(t, c, kind);
      EventStepIs(t, c, kind);
      VersionAddedFields(t, c, kind);
      NewVersionRows(t, c, kind);
      hide NewVersion, VersionAdded;
      SameRowsTruthful(t, t2, c);
      forall i | i in t2.intents ensures Truthful(t2, i) { TruthfulForever(t, t2, i); }
      assert v in t2.versions;
      IntentsTruthful(t2, c, IntentKindOf(kind, v.status == Live), v, c.channels);
    }
  }

  lemma NewVersionRows(t: Tables, c: Cycle, kind: EventKind)
    ensures NewVersion(t, c, kind).guardianUid == c.guardianUid && NewVersion(t, c, kind).scoutUid == c.scoutUid
    ensures VersionAdded(t, c, kind).guardians == t.guardians && VersionAdded(t, c, kind).scouts == t.scouts
  {
    hide Desired, IsLive, EvidenceOf, EventUidOf;
  }

  lemma AnalysisRows(t: Tables, x: Input)
    ensures var after, c := AnalysisStep(t, x), CycleOf(t, x);
            && HasRows(after, c) && MoreRows(t, after) && after.intents == t.intents
  {
    hide RiskOf, OpportunityOf, ChannelsOf, Moves, Previous, NextProjection, FingerprintOf;
    var after, c := AnalysisStep(t, x), CycleOf(t, x);
    assert after.guardians[|t.guardians|].uid == c.guardianUid;
    assert after.scouts[|t.scouts|].uid == c.scoutUid;
  }

  lemma CommitStepTruthful(t: Tables, x: Input)
    requires AllTruthful(t)
    ensures AllTruthful(CommitStep(t, x))
  {
    hide Truthful, HasRows, EventStep, AnalysisStep, CycleOf, ResultOfCommit, FingerprintOf;
    var t0, c := AnalysisStep(t, x), CycleOf(t, x);
    AnalysisRows(t, x);
    forall i | i in t0.intents ensures Truthful(t0, i) { TruthfulForever(t, t0, i); }
    EventStepTruthful(t0, c, GuardianRisk);
    EventStepTruthful(EventStep(t0, c, GuardianRisk), c, ScoutWatch);
    var t1, after := EventsStep(t0, c), CommitStep(t, x);
    forall i | i in after.intents ensures Truthful(after, i) { TruthfulForever(t1, after, i); }
  }

  /** In every run, what any notice froze is what the Guardian and Scout rows of its version say. */
  lemma {:induction false} NoticesTellTheTables(log: seq<Input>)
    ensures AllTruthful(Replay(log))
  {
    if log != [] {
      hide CommitStep, AllTruthful;
      NoticesTellTheTables(log[..|log| - 1]);
      CommitStepTruthful(Replay(log[..|log| - 1]), log[|log| - 1]);
    } else {
      hide Truthful;
    }
  }
}
