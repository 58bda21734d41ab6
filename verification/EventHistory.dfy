/** The event tables of one subject and kind as a function of when an event was desired. */
module EventHistory {
  import opened Wrappers
  import opened Sequences
  import opened Domain
  import opened Lifecycles
  import opened CommitTables
  import G = Guardian

  // ---- the reference: what a trace of desires must leave behind

  predicate Last(trace: seq<bool>) { trace != [] && trace[|trace| - 1] }

  function Init(trace: seq<bool>): seq<bool>
    requires trace != []
  {
    trace[..|trace| - 1]
  }

  /** How often the trace turns true, turns false, and is true. */
  function Rises(trace: seq<bool>): nat {
    if trace == [] then 0 else Rises(Init(trace)) + (if Last(trace) && !Last(Init(trace)) then 1 else 0)
  }

  function Falls(trace: seq<bool>): nat {
    if trace == [] then 0 else Falls(Init(trace)) + (if !Last(trace) && Last(Init(trace)) then 1 else 0)
  }

  function Trues(trace: seq<bool>): nat {
    if trace == [] then 0 else Trues(Init(trace)) + (if Last(trace) then 1 else 0)
  }

  /** How long the trace has been true. */
  function Streak(trace: seq<bool>): nat {
    if !Last(trace) then 0 else Streak(Init(trace)) + 1
  }

  /** One version of the `event`-th event. */
  datatype Stamp = Stamp(event: nat, version: nat, status: EventStatus, change: ChangeType)

  function Expected(trace: seq<bool>): seq<Stamp> {
    if trace == [] then []
    else if Last(trace) then
      Expected(Init(trace))
      + [Stamp(Rises(trace), Streak(trace), Live, if Streak(trace) == 1 then Created else Changed)]
    else if Last(Init(trace)) then
      Expected(Init(trace)) + [Stamp(Rises(trace), Streak(Init(trace)) + 1, Resolved, Ended)]
    else Expected(Init(trace))
  }

  /** One version for each desire and one for each end. */
  lemma {:induction false} VersionCount(trace: seq<bool>)
    ensures |Expected(trace)| == Trues(trace) + Falls(trace)
  {
    if trace != [] { VersionCount(Init(trace)); }
  }

  predicate Opens(x: Stamp) { x.version == 1 && x.status == Live && x.change == Created }

  /** y is the version after x: the next one of a live event, or the first one of the next event. */
  predicate Succeeds(x: Stamp, y: Stamp) {
    if x.status == Live then
      y.event == x.event && y.version == x.version + 1
      && ((y.status == Live && y.change == Changed) || (y.status == Resolved && y.change == Ended))
    else x.status == Resolved && y.event == x.event + 1 && Opens(y)
  }

  ghost predicate Chained(stamps: seq<Stamp>) {
    && (stamps != [] ==> Opens(stamps[0]) && stamps[0].event == 1)
    && forall i, j :: 0 <= i < j == i + 1 < |stamps| ==> Succeeds(stamps[i], stamps[j])
  }

  lemma {:induction false} LastStamp(trace: seq<bool>)
    ensures Expected(trace) == [] <==> Rises(trace) == 0
    ensures Last(trace) ==> Expected(trace) != []
    ensures Expected(trace) != [] ==>
              var x := Expected(trace)[|Expected(trace)| - 1];
              && x.event == Rises(trace)
              && x.status == (if Last(trace) then Live else Resolved)
              && (Last(trace) ==> x.version == Streak(trace))
  {
    if trace != [] { LastStamp(Init(trace)); }
  }

  lemma ChainGrows(stamps: seq<Stamp>, x: Stamp)
    requires Chained(stamps)
    requires if stamps == [] then Opens(x) && x.event == 1 else Succeeds(stamps[|stamps| - 1], x)
    ensures Chained(stamps + [x])
  {
    hide Opens, Succeeds;
  }

  /**
   * Versions of an event run 1, 2, ... without gaps, RESOLVED comes only at its end, and the next
   * event starts only after that: at most one event is live.
   */
  lemma {:induction false} ExpectedIsChained(trace: seq<bool>)
    ensures Chained(Expected(trace))
  {
    if trace != [] {
      hide Chained;
      var before := Init(trace);
      ExpectedIsChained(before);
      LastStamp(before);
      LastStamp(trace);
      if Expected(trace) != Expected(before) {
        ChainGrows(Expected(before), Expected(trace)[|Expected(before)|]);
      }
    }
  }

  /** In a chain the versions of one event stand together, and only the last may be resolved. */
  lemma {:induction false} OneEventAtATime(stamps: seq<Stamp>, i: nat, j: nat)
    requires Chained(stamps) && i <= j < |stamps|
    ensures stamps[i].event <= stamps[j].event
    ensures stamps[i].event == stamps[j].event ==> stamps[j].version == stamps[i].version + (j - i)
    ensures stamps[i].event == stamps[j].event && i < j ==> stamps[i].status == Live
  {
    if i < j {
      OneEventAtATime(stamps, i, j - 1);
      assert Succeeds(stamps[j - 1], stamps[j]);
    }
  }

  // ---- the rows of one key

  function EventsOf(events: seq<MarketEvent>, key: EventKey): seq<MarketEvent> {
    if events == [] then []
    else
      var last := events[|events| - 1];
      EventsOf(events[..|events| - 1], key) + (if last.key == key then [last] else [])
  }

  /** The row `uid` of the event table belongs to the key. */
  predicate Owned(events: seq<MarketEvent>, uid: nat, key: EventKey) {
    exists e <- events :: e.uid == uid && e.key == key
  }

  /** The versions joined with their events on the event's identifier. */
  function VersionsOf(versions: seq<EventVersion>, events: seq<MarketEvent>, key: EventKey): seq<EventVersion> {
    if versions == [] then []
    else
      var last := versions[|versions| - 1];
      VersionsOf(versions[..|versions| - 1], events, key) + (if Owned(events, last.eventUid, key) then [last] else [])
  }

  /** v is the row of the stamp x, the x.event-th event being the x.event-th row of `es`. */
  predicate Bears(es: seq<MarketEvent>, v: EventVersion, x: Stamp) {
    && 1 <= x.event <= |es| && v.eventUid == es[x.event - 1].uid
    && v.version == x.version && v.status == x.status && v.change == x.change
  }

  function CurrentOf(v: EventVersion): CurrentEvent {
    CurrentEvent(v.eventUid, v.uid, v.status, v.version, v.createdAt)
  }

  /** The rows of one key are those of the trace, row by row, and the projection is the last one. */
  ghost predicate History(
    es: seq<MarketEvent>, vs: seq<EventVersion>, current: Option<CurrentEvent>, trace: seq<bool>)
  {
    && |es| == Rises(trace)
    && |vs| == |Expected(trace)|
    && (forall i :: 0 <= i < |vs| ==> Bears(es, vs[i], Expected(trace)[i]))
    && current == if vs == [] then None else Some(CurrentOf(vs[|vs| - 1]))
  }

  // ---- one commit and one kind

  lemma LiveExactly(es: seq<MarketEvent>, vs: seq<EventVersion>, current: Option<CurrentEvent>, trace: seq<bool>)
    requires History(es, vs, current, trace)
    ensures IsLive(current) <==> Last(trace)
    ensures current.Some? ==>
              Bears(es, vs[|vs| - 1], Expected(trace)[|vs| - 1]) && current == Some(CurrentOf(vs[|vs| - 1]))
  {
    LastStamp(trace);
  }

  lemma Snoc(trace: seq<bool>, d: bool)
    ensures Init(trace + [d]) == trace && (Last(trace + [d]) <==> d)
  {
  }

  lemma Rests(es: seq<MarketEvent>, vs: seq<EventVersion>, current: Option<CurrentEvent>, trace: seq<bool>)
    requires History(es, vs, current, trace) && !IsLive(current)
    ensures History(es, vs, current, trace + [false])
  {
    LiveExactly(es, vs, current, trace);
    Snoc(trace, false);
    hide Bears, IsLive;
  }

  /** v is what a commit desiring d writes, on the new event e if none is live. */
  predicate Writes(current: Option<CurrentEvent>, d: bool, e: MarketEvent, v: EventVersion) {
    && (d || IsLive(current))
    && v.eventUid == (if IsLive(current) then current.value.eventUid else e.uid)
    && v.version == (if IsLive(current) then current.value.version + 1 else 1)
    && v.status == (if d then Live else Resolved)
    && v.change == (if !d then Ended else if IsLive(current) then Changed else Created)
  }

  function Opened(current: Option<CurrentEvent>, e: MarketEvent): seq<MarketEvent> {
    if IsLive(current) then [] else [e]
  }

  lemma NextStamp(
    es: seq<MarketEvent>, vs: seq<EventVersion>, current: Option<CurrentEvent>, trace: seq<bool>, d: bool,
    e: MarketEvent, v: EventVersion)
    requires History(es, vs, current, trace) && Writes(current, d, e, v)
    ensures |Expected(trace + [d])| == |vs| + 1 && Expected(trace + [d])[..|vs|] == Expected(trace)
    ensures Rises(trace + [d]) == |es| + |Opened(current, e)|
    ensures Bears(es + Opened(current, e), v, Expected(trace + [d])[|vs|])
  {
    LiveExactly(es, vs, current, trace);
    LastStamp(trace);
    Snoc(trace, d);
    assert Streak(trace + [d]) == if d then Streak(trace) + 1 else 0;
  }

  lemma Continues(
    es: seq<MarketEvent>, vs: seq<EventVersion>, current: Option<CurrentEvent>, trace: seq<bool>, d: bool,
    e: MarketEvent, v: EventVersion)
    requires History(es, vs, current, trace) && Writes(current, d, e, v)
    ensures History(es + Opened(current, e), vs + [v], Some(CurrentOf(v)), trace + [d])
  {
    NextStamp(es, vs, current, trace, d, e, v);
    hide Expected, Writes, Opened, Rises;
    var longer, stamps := vs + [v], Expected(trace + [d]);
    forall i | 0 <= i < |longer| ensures Bears(es + Opened(current, e), longer[i], stamps[i]) {
      if i < |vs| {
        assert stamps[i] == Expected(trace)[i];
        assert Bears(es, vs[i], Expected(trace)[i]);
      }
    }
  }

  // ---- the tables

  /** Identifiers are below the next one, events are told apart, projections point to their own events. */
  ghost predicate WellFormed(t: Tables) {
    && (forall e <- t.events :: e.uid < t.nextUid)
    && (forall i, j :: 0 <= i < j < |t.events| ==> t.events[i].uid < t.events[j].uid)
    && (forall v <- t.versions :: v.eventUid < t.nextUid && v.uid < t.nextUid)
    && (forall key <- t.current :: Owned(t.events, t.current[key].eventUid, key))
  }

  lemma OneOwner(events: seq<MarketEvent>, uid: nat, a: EventKey, b: EventKey)
    requires forall i, j :: 0 <= i < j < |events| ==> events[i].uid < events[j].uid
    requires Owned(events, uid, a) && Owned(events, uid, b)
    ensures a == b
  {
    var i :| 0 <= i < |events| && events[i].uid == uid && events[i].key == a;
    var j :| 0 <= j < |events| && events[j].uid == uid && events[j].key == b;
  }

  lemma {:induction false} OwnersKept(
      versions: seq<EventVersion>, events: seq<MarketEvent>, e: MarketEvent, key: EventKey)
    requires forall v <- versions :: v.eventUid < e.uid
    ensures VersionsOf(versions, events + [e], key) == VersionsOf(versions, events, key)
  {
    if versions != [] {
      OwnersKept(versions[..|versions| - 1], events, e, key);
      var uid := versions[|versions| - 1].eventUid;
      assert versions[|versions| - 1] in versions;
      assert Owned(events + [e], uid, key) <==> Owned(events, uid, key);
    }
  }

  lemma EventsOfSnoc(events: seq<MarketEvent>, e: MarketEvent, key: EventKey)
    ensures EventsOf(events + [e], key) == EventsOf(events, key) + (if e.key == key then [e] else [])
  {
    assert (events + [e])[..|events|] == events;
  }

  lemma VersionsOfSnoc(versions: seq<EventVersion>, events: seq<MarketEvent>, v: EventVersion, key: EventKey)
    ensures VersionsOf(versions + [v], events, key)
            == VersionsOf(versions, events, key) + (if Owned(events, v.eventUid, key) then [v] else [])
  {
    assert (versions + [v])[..|versions|] == versions;
  }

  /** The steps that do not touch the events leave all of this alone. */
  ghost predicate SameEvents(a: Tables, b: Tables) {
    a.events == b.events && a.versions == b.versions && a.current == b.current && a.nextUid <= b.nextUid
  }

  lemma SameEventsWellFormed(a: Tables, b: Tables)
    requires SameEvents(a, b) && WellFormed(a)
    ensures WellFormed(b)
  {
  }

  lemma {:induction false} IntentsLeaveEvents(
      t: Tables, c: Cycle, kind: IntentKind, v: EventVersion, channels: seq<Channel>)
    ensures SameEvents(t, IntentStep(t, c, kind, v, channels))
  {
    if channels != [] { IntentsLeaveEvents(t, c, kind, v, channels[..|channels| - 1]); }
  }

  lemma AnalysisLeavesEvents(t: Tables, x: Input)
    ensures SameEvents(t, AnalysisStep(t, x))
  {
    hide RiskOf, OpportunityOf, FingerprintOf, ChannelsOf, Moves, Previous, NextProjection;
  }

  function NewVersion(t: Tables, c: Cycle, kind: EventKind): EventVersion {
    var key := EventKey(c.subject, kind);
    VersionOf(EventRowStep(t, c, kind).nextUid, EventUidOf(t, key), Lookup(t.current, key), c, kind)
  }

  function NewEvent(t: Tables, c: Cycle, kind: EventKind): MarketEvent {
    MarketEvent(t.nextUid, EventKey(c.subject, kind), c.asOf)
  }

  /** What the step adds to the rows of each key: its own gets a version, the others nothing. */
  ghost predicate Extends(t: Tables, after: Tables, c: Cycle, kind: EventKind, key: EventKey) {
    var mine := key == EventKey(c.subject, kind);
    var v, current := NewVersion(t, c, kind), Lookup(t.current, key);
    && EventsOf(after.events, key)
       == EventsOf(t.events, key) + (if mine then Opened(current, NewEvent(t, c, kind)) else [])
    && VersionsOf(after.versions, after.events, key)
       == VersionsOf(t.versions, t.events, key) + (if mine then [v] else [])
    && Lookup(after.current, key) == if mine then Some(CurrentOf(v)) else current
  }

  lemma EventRowKeeps(t: Tables, c: Cycle, kind: EventKind, key: EventKey)
    requires WellFormed(t)
    ensures var after := EventRowStep(t, c, kind);
            && WellFormed(after) && after.versions == t.versions && after.current == t.current
            && VersionsOf(after.versions, after.events, key) == VersionsOf(t.versions, t.events, key)
            && EventsOf(after.events, key)
               == EventsOf(t.events, key)
                  + (if key == EventKey(c.subject, kind) then Opened(Lookup(t.current, key), NewEvent(t, c, kind)) else [])
  {
    hide IsLive;
    var mine := EventKey(c.subject, kind);
    if !IsLive(Lookup(t.current, mine)) {
      EventsOfSnoc(t.events, NewEvent(t, c, kind), key);
      OwnersKept(t.versions, t.events, NewEvent(t, c, kind), key);
      var after := EventRowStep(t, c, kind);
      forall k | k in after.current ensures Owned(after.events, after.current[k].eventUid, k) {
        assert Owned(t.events, t.current[k].eventUid, k);
      }
    }
  }

  lemma OwnEvent(t: Tables, c: Cycle, kind: EventKind)
    requires WellFormed(t)
    ensures Owned(EventRowStep(t, c, kind).events, EventUidOf(t, EventKey(c.subject, kind)), EventKey(c.subject, kind))
  {
    var mine := EventKey(c.subject, kind);
    if IsLive(Lookup(t.current, mine)) {
      assert mine in t.current;
    } else {
      var e := NewEvent(t, c, kind);
      assert e in EventRowStep(t, c, kind).events;
    }
  }

  lemma VersionKeeps(t: Tables, key: EventKey, v: EventVersion, other: EventKey)
    requires WellFormed(t) && Owned(t.events, v.eventUid, key) && v.uid == t.nextUid
    ensures var after := VersionStep(t, key, v);
            && WellFormed(after) && after.events == t.events
            && VersionsOf(after.versions, after.events, other)
               == VersionsOf(t.versions, t.events, other) + (if other == key then [v] else [])
            && Lookup(after.current, other) == if other == key then Some(CurrentOf(v)) else Lookup(t.current, other)
  {
    VersionsOfSnoc(t.versions, t.events, v, other);
    if other != key && Owned(t.events, v.eventUid, other) {
      OneOwner(t.events, v.eventUid, key, other);
    }
  }

  lemma EventStepExtends(t: Tables, c: Cycle, kind: EventKind, key: EventKey)
    requires WellFormed(t) && !Idle(t, c, kind)
    ensures WellFormed(EventStep(t, c, kind)) && Extends(t, EventStep(t, c, kind), c, kind, key)
  {
    hide WellFormed, Owned, EventsOf, VersionsOf, VersionOf, EventUidOf, IsLive, Desired, Opened, IntentStep;
    var mine := EventKey(c.subject, kind);
    var t1 := EventRowStep(t, c, kind);
    var v := NewVersion(t, c, kind);
    EventRowKeeps(t, c, kind, key);
    OwnEvent(t, c, kind);
    VersionFields(t1.nextUid, EventUidOf(t, mine), Lookup(t.current, mine), c, kind);
    VersionKeeps(t1, mine, v, key);
    var t2 := VersionStep(t1, mine, v);
    var k := IntentKindOf(kind, Desired(kind, c.risk, c.opportunity));
    IntentsLeaveEvents(t2, c, k, v, c.channels);
    SameEventsWellFormed(t2, IntentStep(t2, c, k, v, c.channels));
  }

  lemma VersionFields(uid: nat, eventUid: nat, current: Option<CurrentEvent>, c: Cycle, kind: EventKind)
    ensures VersionOf(uid, eventUid, current, c, kind).uid == uid
    ensures VersionOf(uid, eventUid, current, c, kind).eventUid == eventUid
  {
    hide EvidenceOf, IsLive, Desired;
  }

  // ---- runs

  ghost predicate KeyHistory(t: Tables, key: EventKey, trace: seq<bool>) {
    History(EventsOf(t.events, key), VersionsOf(t.versions, t.events, key), Lookup(t.current, key), trace)
  }

  lemma WritesNewVersion(t: Tables, c: Cycle, kind: EventKind)
    requires !Idle(t, c, kind)
    ensures Writes(Lookup(t.current, EventKey(c.subject, kind)), Desired(kind, c.risk, c.opportunity),
                   NewEvent(t, c, kind), NewVersion(t, c, kind))
  {
    hide EvidenceOf, Desired;
  }

  lemma EventStepHistory(t: Tables, c: Cycle, kind: EventKind, key: EventKey, trace: seq<bool>)
    requires WellFormed(t) && KeyHistory(t, key, trace)
    ensures WellFormed(EventStep(t, c, kind))
    ensures KeyHistory(
              EventStep(t, c, kind), key,
              if key == EventKey(c.subject, kind) then trace + [Desired(kind, c.risk, c.opportunity)] else trace)
  {
    hide WellFormed, History, EventsOf, VersionsOf, NewVersion, NewEvent, Desired, IsLive, Writes, Opened;
    var es, vs, current := EventsOf(t.events, key), VersionsOf(t.versions, t.events, key), Lookup(t.current, key);
    var mine := key == EventKey(c.subject, kind);
    if Idle(t, c, kind) {
      assert EventStep(t, c, kind) == t;
      if mine { Rests(es, vs, current, trace); }
    } else {
      hide EventStep;
      EventStepExtends(t, c, kind, key);
      if mine {
        WritesNewVersion(t, c, kind);
        Continues(es, vs, current, trace, Desired(kind, c.risk, c.opportunity), NewEvent(t, c, kind), NewVersion(t, c, kind));
      } else {
        assert es + [] == es && vs + [] == vs;
      }
    }
  }

  /** When an event of this key was desired, commit by commit of its subject. */
  function DesiredTrace(log: seq<Input>, key: EventKey): seq<bool> {
    if log == [] then []
    else
      var x := log[|log| - 1];
      DesiredTrace(log[..|log| - 1], key)
      + (if key.subject == x.snapshot.subject then [Desired(key.kind, RiskOf(x), OpportunityOf(x))] else [])
  }

  lemma EventsStepHistory(t: Tables, c: Cycle, key: EventKey, trace: seq<bool>)
    requires WellFormed(t) && KeyHistory(t, key, trace)
    ensures WellFormed(EventsStep(t, c))
    ensures KeyHistory(
              EventsStep(t, c), key,
              trace + if key.subject == c.subject then [Desired(key.kind, c.risk, c.opportunity)] else [])
  {
    hide WellFormed, KeyHistory, Desired, EventStep;
    assert trace + [] == trace && key == EventKey(key.subject, key.kind);
    EventStepHistory(t, c, GuardianRisk, key, trace);
    var t1 := EventStep(t, c, GuardianRisk);
    if key.kind == GuardianRisk {
      EventStepHistory(t1, c, ScoutWatch, key, trace + if key.subject == c.subject then [Desired(GuardianRisk, c.risk, c.opportunity)] else []);
    } else {
      EventStepHistory(t1, c, ScoutWatch, key, trace);
    }
  }

  lemma SameEventsHistory(a: Tables, b: Tables, key: EventKey, trace: seq<bool>)
    requires SameEvents(a, b) && KeyHistory(a, key, trace)
    ensures KeyHistory(b, key, trace)
  {
    hide History, EventsOf, VersionsOf;
  }

  lemma AuditLeavesEvents(t: Tables, x: Input, r: CommitResult)
    ensures SameEvents(t, AuditStep(t, x, r))
  {
    hide FingerprintOf;
  }

  lemma CommitStepHistory(t: Tables, x: Input, key: EventKey, trace: seq<bool>)
    requires WellFormed(t) && KeyHistory(t, key, trace)
    ensures WellFormed(CommitStep(t, x))
    ensures KeyHistory(
              CommitStep(t, x), key,
              trace + if key.subject == x.snapshot.subject then [Desired(key.kind, RiskOf(x), OpportunityOf(x))] else [])
  {
    hide WellFormed, KeyHistory, SameEvents, Desired, RiskOf, OpportunityOf, EventsStep, AnalysisStep,
         ResultOfCommit, AuditStep;
    var c, t0 := CycleOf(t, x), AnalysisStep(t, x);
    AnalysisLeavesEvents(t, x);
    SameEventsWellFormed(t, t0);
    SameEventsHistory(t, t0, key, trace);
    EventsStepHistory(t0, c, key, trace);
    var t1 := EventsStep(t0, c);
    var longer := trace + if key.subject == c.subject then [Desired(key.kind, c.risk, c.opportunity)] else [];
    AuditLeavesEvents(t1, x, ResultOfCommit(t, x));
    SameEventsWellFormed(t1, CommitStep(t, x));
    SameEventsHistory(t1, CommitStep(t, x), key, longer);
  }

  lemma NothingYet(key: EventKey)
    ensures WellFormed(EmptyTables()) && KeyHistory(EmptyTables(), key, [])
  {
  }

  /**
   * In every run the rows of a key are the reference history of its desires: one event for each
   * rise, one version for each desire and for each end, and a projection equal to the last version.
   */
  lemma {:induction false} EventTablesOfRun(log: seq<Input>, key: EventKey)
    ensures WellFormed(Replay(log))
    ensures KeyHistory(Replay(log), key, DesiredTrace(log, key))
  {
    hide CommitStep, Desired, RiskOf, OpportunityOf;
    if log == [] {
      NothingYet(key);
    } else {
      hide KeyHistory, WellFormed;
      var before := log[..|log| - 1];
      EventTablesOfRun(before, key);
      CommitStepHistory(Replay(before), log[|log| - 1], key, DesiredTrace(before, key));
    }
  }

  /** The counts a reader can check against the tables. */
  lemma EventCountsOfRun(log: seq<Input>, key: EventKey)
    ensures var t, trace := Replay(log), DesiredTrace(log, key);
            && |EventsOf(t.events, key)| == Rises(trace)
            && |VersionsOf(t.versions, t.events, key)| == Trues(trace) + Falls(trace)
            && (IsLive(Lookup(t.current, key)) <==> Last(trace))
  {
    hide Replay, DesiredTrace, EventsOf, VersionsOf;
    var t, trace := Replay(log), DesiredTrace(log, key);
    EventTablesOfRun(log, key);
    VersionCount(trace);
    LiveExactly(EventsOf(t.events, key), VersionsOf(t.versions, t.events, key), Lookup(t.current, key), trace);
  }

  // ---- the same, said of the rows themselves

  predicate Begins(v: EventVersion) { v.version == 1 && v.status == Live && v.change == Created }

  /** w is the row after v: the next version of a live event, or the first one of a later event. */
  predicate FollowsRow(v: EventVersion, w: EventVersion) {
    if w.eventUid == v.eventUid then
      && v.status == Live && w.version == v.version + 1
      && ((w.status == Live && w.change == Changed) || (w.status == Resolved && w.change == Ended))
    else v.status == Resolved && v.eventUid < w.eventUid && Begins(w)
  }

  /** The latest row of its event says that the event is live. */
  ghost predicate LiveRow(vs: seq<EventVersion>, i: int) {
    0 <= i < |vs| && vs[i].status == Live && forall j :: i < j < |vs| ==> vs[j].eventUid != vs[i].eventUid
  }

  ghost predicate RowsInOrder(vs: seq<EventVersion>) {
    && (vs != [] ==> Begins(vs[0]))
    && (forall i, j :: 0 <= i < j == i + 1 < |vs| ==> FollowsRow(vs[i], vs[j]))
    && (forall i, j :: 0 <= i < j < |vs| && vs[i].eventUid == vs[j].eventUid ==>
          vs[i].status == Live && vs[j].version == vs[i].version + (j - i))
    && (forall i, j :: LiveRow(vs, i) && LiveRow(vs, j) ==> i == j)
  }

  ghost predicate Ascend(es: seq<MarketEvent>) { forall i, j :: 0 <= i < j < |es| ==> es[i].uid < es[j].uid }

  lemma {:induction false} EventsAscend(events: seq<MarketEvent>, key: EventKey)
    requires Ascend(events)
    ensures Ascend(EventsOf(events, key))
    ensures forall e <- EventsOf(events, key) :: e in events
  {
    if events != [] {
      var front, last := events[..|events| - 1], events[|events| - 1];
      EventsAscend(front, key);
      forall e | e in EventsOf(front, key) ensures e.uid < last.uid { assert e in front; }
    }
  }

  /** In an ascending table two rows of stamps are of one event exactly if the stamps are. */
  lemma SameEventRows(es: seq<MarketEvent>, v: EventVersion, x: Stamp, w: EventVersion, y: Stamp)
    requires Ascend(es) && Bears(es, v, x) && Bears(es, w, y)
    ensures v.eventUid == w.eventUid <==> x.event == y.event
    ensures v.eventUid < w.eventUid <==> x.event < y.event
  {
  }

  lemma RowsOfHistory(
    es: seq<MarketEvent>, vs: seq<EventVersion>, current: Option<CurrentEvent>, trace: seq<bool>, i: nat, j: nat)
    requires History(es, vs, current, trace) && Ascend(es) && i < j < |vs|
    ensures j == i + 1 ==> FollowsRow(vs[i], vs[j])
    ensures vs[i].eventUid == vs[j].eventUid ==> vs[i].status == Live && vs[j].version == vs[i].version + (j - i)
  {
    hide Expected, Rises;
    var stamps := Expected(trace);
    ExpectedIsChained(trace);
    OneEventAtATime(stamps, i, j);
    assert Bears(es, vs[i], stamps[i]) && Bears(es, vs[j], stamps[j]);
    SameEventRows(es, vs[i], stamps[i], vs[j], stamps[j]);
    if j == i + 1 { assert Succeeds(stamps[i], stamps[j]); }
  }

  /** A row that is not the last is followed by its own event or is resolved. */
  lemma OneLiveRow(vs: seq<EventVersion>)
    requires forall i, j :: 0 <= i < j == i + 1 < |vs| ==> FollowsRow(vs[i], vs[j])
    ensures forall i :: LiveRow(vs, i) ==> i == |vs| - 1
  {
    forall i | 0 <= i < |vs| - 1 ensures !LiveRow(vs, i) { assert FollowsRow(vs[i], vs[i + 1]); }
  }

  lemma HistoryInOrder(es: seq<MarketEvent>, vs: seq<EventVersion>, current: Option<CurrentEvent>, trace: seq<bool>)
    requires History(es, vs, current, trace) && Ascend(es)
    ensures RowsInOrder(vs)
  {
    if vs != [] {
      ExpectedIsChained(trace);
      assert Bears(es, vs[0], Expected(trace)[0]);
    }
    hide History, Ascend, FollowsRow, LiveRow, Begins;
    forall i, j | 0 <= i < j < |vs|
      ensures j == i + 1 ==> FollowsRow(vs[i], vs[j])
      ensures vs[i].eventUid == vs[j].eventUid ==> vs[i].status == Live && vs[j].version == vs[i].version + (j - i)
    {
      RowsOfHistory(es, vs, current, trace, i, j);
    }
    OneLiveRow(vs);
  }

  /**
   * In every run the versions of a key run 1, 2, ... without gaps within each event, only the last
   * version of an event is RESOLVED, the next event begins only after that, and at most one is live.
   */
  lemma RowsOfRun(log: seq<Input>, key: EventKey)
    ensures RowsInOrder(VersionsOf(Replay(log).versions, Replay(log).events, key))
  {
    var t := Replay(log);
    EventTablesOfRun(log, key);
    assert Ascend(t.events);
    EventsAscend(t.events, key);
    HistoryInOrder(EventsOf(t.events, key), VersionsOf(t.versions, t.events, key), Lookup(t.current, key),
                   DesiredTrace(log, key));
  }
}
