/** Reading a commit back from the tables gives what the commit returned, at any later time. */
module CommitReplay {
  import opened Wrappers
  import opened Sorting
  import opened Sequences
  import opened Domain
  import opened Lifecycles
  import opened CommitTables
  import opened EventHistory

  predicate NatLeq(x: nat, y: nat) { x <= y }

  function CommitFor(commits: seq<CommitRow>, snapshotUid: string): Option<CommitRow> {
    if commits == [] then None
    else if commits[|commits| - 1].snapshotUid == snapshotUid then Some(commits[|commits| - 1])
    else CommitFor(commits[..|commits| - 1], snapshotUid)
  }

  function VersionUids(versions: seq<EventVersion>, commitUid: nat): seq<nat> {
    if versions == [] then []
    else
      var last := versions[|versions| - 1];
      VersionUids(versions[..|versions| - 1], commitUid) + (if last.commitUid == commitUid then [last.uid] else [])
  }

  predicate VersionOfCommit(versions: seq<EventVersion>, versionUid: nat, commitUid: nat) {
    exists v <- versions :: v.uid == versionUid && v.commitUid == commitUid
  }

  /** The intents joined with their versions. */
  function IntentUids(intents: seq<Intent>, versions: seq<EventVersion>, commitUid: nat): seq<nat> {
    if intents == [] then []
    else
      var last := intents[|intents| - 1];
      IntentUids(intents[..|intents| - 1], versions, commitUid)
      + (if VersionOfCommit(versions, last.versionUid, commitUid) then [last.uid] else [])
  }

  /** The stored commit of a snapshot, its versions and intents ordered by identifier. */
  function Existing(t: Tables, snapshotUid: string): Option<(Fingerprint, CommitResult)> {
    var row := CommitFor(t.commits, snapshotUid);
    if row.None? then None
    else
      var c := row.value;
      Some((c.fingerprint,
            CommitResult(c.uid, c.stateUid, c.guardianUid, c.scoutUid,
                         SortBy(NatLeq, VersionUids(t.versions, c.uid)),
                         SortBy(NatLeq, IntentUids(t.intents, t.versions, c.uid)))))
  }

  // ---- identifiers grow

  ghost predicate Ascending(s: seq<nat>) { forall i, j :: 0 <= i < j < |s| ==> s[i] < s[j] }

  lemma AscendingIsSorted(s: seq<nat>)
    requires Ascending(s)
    ensures SortBy(NatLeq, s) == s
  {
    SortBySorted(NatLeq, s);
    SortedUnique(NatLeq, s, SortBy(NatLeq, s));
  }

  ghost predicate RowsAscend(versions: seq<EventVersion>, intents: seq<Intent>) {
    && (forall i, j :: 0 <= i < j < |versions| ==> versions[i].uid < versions[j].uid)
    && (forall i, j :: 0 <= i < j < |intents| ==> intents[i].uid < intents[j].uid)
  }

  /** Rows are stored in the order of their identifiers, all below the next one. */
  ghost predicate Ordered(t: Tables) {
    && RowsAscend(t.versions, t.intents)
    && (forall c <- t.commits :: c.uid < t.nextUid)
    && (forall v <- t.versions :: v.uid < t.nextUid && v.commitUid < t.nextUid)
    && (forall i <- t.intents :: i.uid < t.nextUid && i.versionUid < t.nextUid)
  }

  /** From t on, the events of one commit only append rows, all of them that commit's. */
  ghost predicate Grows(t: Tables, after: Tables, commitUid: nat) {
    && t.commits == after.commits && t.nextUid <= after.nextUid
    && t.versions <= after.versions && t.intents <= after.intents
    && (forall j :: |t.versions| <= j < |after.versions| ==> after.versions[j].commitUid == commitUid)
    && (forall j :: |t.versions| <= j < |after.versions| ==> t.nextUid <= after.versions[j].uid)
    && (forall j :: |t.intents| <= j < |after.intents| ==>
          VersionOfCommit(after.versions, after.intents[j].versionUid, commitUid))
  }

  lemma VersionStays(a: seq<EventVersion>, b: seq<EventVersion>, versionUid: nat, commitUid: nat)
    requires a <= b && VersionOfCommit(a, versionUid, commitUid)
    ensures VersionOfCommit(b, versionUid, commitUid)
  {
    var v :| v in a && v.uid == versionUid && v.commitUid == commitUid;
    assert v in b;
  }

  lemma GrowsTwice(t: Tables, t1: Tables, t2: Tables, commitUid: nat)
    requires Grows(t, t1, commitUid) && Grows(t1, t2, commitUid)
    ensures Grows(t, t2, commitUid)
  {
    hide VersionOfCommit;
    forall j | |t.intents| <= j < |t2.intents|
      ensures VersionOfCommit(t2.versions, t2.intents[j].versionUid, commitUid)
    {
      if j < |t1.intents| {
        assert t2.intents[j] == t1.intents[j];
        VersionStays(t1.versions, t2.versions, t1.intents[j].versionUid, commitUid);
      }
    }
    forall j | |t.versions| <= j < |t2.versions|
      ensures t2.versions[j].commitUid == commitUid && t.nextUid <= t2.versions[j].uid
    {
      if j < |t1.versions| {
        assert t2.versions[j] == t1.versions[j];
      }
    }
  }

  lemma OrderedVersion(t: Tables, key: EventKey, v: EventVersion)
    requires Ordered(t) && v.uid == t.nextUid && v.commitUid < t.nextUid
    ensures Ordered(VersionStep(t, key, v)) && Grows(t, VersionStep(t, key, v), v.commitUid)
  {
    assert forall i | 0 <= i < |t.versions| :: t.versions[i] in t.versions;
  }

  lemma OrderedIntent(t: Tables, i: Intent, deliveries: map<nat, Delivery>, commitUid: nat)
    requires Ordered(t) && i.uid == t.nextUid && i.versionUid < t.nextUid
    requires VersionOfCommit(t.versions, i.versionUid, commitUid)
    ensures var after := t.(nextUid := t.nextUid + 1, intents := t.intents + [i], deliveries := deliveries);
            Ordered(after) && Grows(t, after, commitUid)
  {
    assert forall j | 0 <= j < |t.intents| :: t.intents[j] in t.intents;
  }

  lemma {:induction false} OrderedIntents(
      t: Tables, c: Cycle, kind: IntentKind, v: EventVersion, channels: seq<Channel>)
    requires Ordered(t) && VersionOfCommit(t.versions, v.uid, c.commitUid)
    ensures var after := IntentStep(t, c, kind, v, channels);
            Ordered(after) && Grows(t, after, c.commitUid) && after.versions == t.versions
  {
    hide FrozenOf;
    if channels != [] {
      var before := IntentStep(t, c, kind, v, channels[..|channels| - 1]);
      OrderedIntents(t, c, kind, v, channels[..|channels| - 1]);
      var i := IntentOf(before.nextUid, c, kind, v, channels[|channels| - 1]);
      OrderedIntent(before, i, IntentStep(t, c, kind, v, channels).deliveries, c.commitUid) by {
        VersionUidBelow(before, v.uid, c.commitUid);
      }
      GrowsTwice(t, before, IntentStep(t, c, kind, v, channels), c.commitUid);
    }
  }

  lemma VersionUidBelow(t: Tables, versionUid: nat, commitUid: nat)
    requires Ordered(t) && VersionOfCommit(t.versions, versionUid, commitUid)
    ensures versionUid < t.nextUid
  {
  }

  lemma OrderedEventRow(t: Tables, c: Cycle, kind: EventKind)
    requires Ordered(t)
    ensures Ordered(EventRowStep(t, c, kind)) && Grows(t, EventRowStep(t, c, kind), c.commitUid)
    ensures t.nextUid <= EventRowStep(t, c, kind).nextUid
  {
    hide IsLive, VersionOfCommit;
  }

  lemma OrderedEvent(t: Tables, c: Cycle, kind: EventKind)
    requires Ordered(t) && c.commitUid < t.nextUid
    ensures Ordered(EventStep(t, c, kind)) && Grows(t, EventStep(t, c, kind), c.commitUid)
  {
    hide Ordered, Grows, IsLive, Desired, EvidenceOf, IntentStep, EventUidOf, VersionOfCommit, IntentKindOf;
    if Idle(t, c, kind) {
      GrowsNot(t, c.commitUid);
    } else {
      var key, t1 := EventKey(c.subject, kind), EventRowStep(t, c, kind);
      var v := VersionOf(t1.nextUid, EventUidOf(t, key), Lookup(t.current, key), c, kind);
      var t2, k := VersionStep(t1, key, v), IntentKindOf(kind, Desired(kind, c.risk, c.opportunity));
      OrderedEventRow(t, c, kind);
      OrderedVersion(t1, key, v);
      NewestVersion(t1, key, v);
      OrderedIntents(t2, c, k, v, c.channels);
      GrowsTwice(t, t1, t2, c.commitUid);
      GrowsTwice(t, t2, IntentStep(t2, c, k, v, c.channels), c.commitUid);
    }
  }

  lemma NewestVersion(t: Tables, key: EventKey, v: EventVersion)
    ensures VersionOfCommit(VersionStep(t, key, v).versions, v.uid, v.commitUid)
  {
    assert v in VersionStep(t, key, v).versions;
  }

  lemma GrowsNot(t: Tables, commitUid: nat)
    ensures Grows(t, t, commitUid)
  {
  }

  lemma OrderedEvents(t: Tables, c: Cycle)
    requires Ordered(t) && c.commitUid < t.nextUid
    ensures Ordered(EventsStep(t, c)) && Grows(t, EventsStep(t, c), c.commitUid)
  {
    hide EventStep, Ordered;
    OrderedEvent(t, c, GuardianRisk);
    var t1 := EventStep(t, c, GuardianRisk);
    OrderedEvent(t1, c, ScoutWatch);
    GrowsTwice(t, t1, EventStep(t1, c, ScoutWatch), c.commitUid);
  }

  // ---- reading back

  lemma VersionUidsGrow(s: seq<EventVersion>, v: EventVersion)
    ensures Map(VersionUid, s + [v]) == Map(VersionUid, s) + [v.uid]
  {
    MapConcat(VersionUid, s, [v]);
  }

  lemma IntentUidsGrow(s: seq<Intent>, i: Intent)
    ensures Map(IntentUid, s + [i]) == Map(IntentUid, s) + [i.uid]
  {
    MapConcat(IntentUid, s, [i]);
  }

  lemma {:induction false} OwnVersionUids(a: seq<EventVersion>, b: seq<EventVersion>, commitUid: nat)
    requires (forall v <- a :: v.commitUid != commitUid) && (forall v <- b :: v.commitUid == commitUid)
    ensures VersionUids(a + b, commitUid) == Map(VersionUid, b)
  {
    hide Map;
    if b != [] {
      var front, last := b[..|b| - 1], b[|b| - 1];
      assert last in b;
      OwnVersionUids(a, front, commitUid);
      assert (a + b)[..|a + b| - 1] == a + front;
      VersionUidsGrow(front, last);
      assert b == front + [last];
    } else if a != [] {
      assert a + b == a && a[|a| - 1] in a;
      OwnVersionUids(a[..|a| - 1], [], commitUid);
      assert a[..|a| - 1] + [] == a[..|a| - 1];
    }
  }

  lemma {:induction false} OwnIntentUids(a: seq<Intent>, b: seq<Intent>, versions: seq<EventVersion>, commitUid: nat)
    requires forall i <- a :: !VersionOfCommit(versions, i.versionUid, commitUid)
    requires forall i <- b :: VersionOfCommit(versions, i.versionUid, commitUid)
    ensures IntentUids(a + b, versions, commitUid) == Map(IntentUid, b)
  {
    hide VersionOfCommit, Map;
    if b != [] {
      var front, last := b[..|b| - 1], b[|b| - 1];
      assert last in b;
      OwnIntentUids(a, front, versions, commitUid);
      assert (a + b)[..|a + b| - 1] == a + front;
      IntentUidsGrow(front, last);
      assert b == front + [last];
    } else if a != [] {
      assert a + b == a && a[|a| - 1] in a;
      OwnIntentUids(a[..|a| - 1], [], versions, commitUid);
      assert a[..|a| - 1] + [] == a[..|a| - 1];
    }
  }

  lemma {:induction false} OtherVersionUids(a: seq<EventVersion>, b: seq<EventVersion>, commitUid: nat)
    requires forall v <- b :: v.commitUid != commitUid
    ensures VersionUids(a + b, commitUid) == VersionUids(a, commitUid)
  {
    if b != [] {
      var front, last := b[..|b| - 1], b[|b| - 1];
      OtherVersionUids(a, front, commitUid);
      assert (a + b)[..|a + b| - 1] == a + front && last in b;
    } else {
      assert a + b == a;
    }
  }

  lemma {:induction false} OtherIntentUids(
    a: seq<Intent>, b: seq<Intent>, versions: seq<EventVersion>, more: seq<EventVersion>, commitUid: nat)
    requires forall i <- b :: !VersionOfCommit(more, i.versionUid, commitUid)
    requires forall u :: VersionOfCommit(versions, u, commitUid) <==> VersionOfCommit(more, u, commitUid)
    ensures IntentUids(a + b, more, commitUid) == IntentUids(a, versions, commitUid)
  {
    hide VersionOfCommit;
    if b != [] {
      var front, last := b[..|b| - 1], b[|b| - 1];
      OtherIntentUids(a, front, versions, more, commitUid);
      assert (a + b)[..|a + b| - 1] == a + front && last in b;
    } else if a != [] {
      assert a + b == a;
      OtherIntentUids(a[..|a| - 1], [], versions, more, commitUid);
      assert a[..|a| - 1] + [] == a[..|a| - 1];
    }
  }

  lemma AscendingSnoc(s: seq<nat>, x: nat)
    requires Ascending(s) && forall u <- s :: u < x
    ensures Ascending(s + [x])
  {
    assert forall i | 0 <= i < |s| :: s[i] in s;
  }

  lemma {:induction false} VersionUidsAscend(versions: seq<EventVersion>, commitUid: nat, limit: nat)
    requires RowsAscend(versions, []) && forall v <- versions :: v.uid < limit
    ensures Ascending(VersionUids(versions, commitUid))
    ensures forall u <- VersionUids(versions, commitUid) :: u < limit
  {
    if versions != [] {
      var front, last := versions[..|versions| - 1], versions[|versions| - 1];
      assert last in versions;
      VersionUidsAscend(front, commitUid, last.uid);
      AscendingSnoc(VersionUids(front, commitUid), last.uid);
    }
  }

  lemma {:induction false} IntentUidsAscend(
      intents: seq<Intent>, versions: seq<EventVersion>, commitUid: nat, limit: nat)
    requires RowsAscend([], intents) && forall i <- intents :: i.uid < limit
    ensures Ascending(IntentUids(intents, versions, commitUid))
    ensures forall u <- IntentUids(intents, versions, commitUid) :: u < limit
  {
    hide VersionOfCommit;
    if intents != [] {
      var front, last := intents[..|intents| - 1], intents[|intents| - 1];
      assert last in intents;
      IntentUidsAscend(front, versions, commitUid, last.uid);
      AscendingSnoc(IntentUids(front, versions, commitUid), last.uid);
    }
  }

  /** Right after its events, a commit reads back exactly the rows it added, in their order. */
  lemma ReadBackNow(t: Tables, after: Tables, commitUid: nat)
    requires Ordered(t) && Ordered(after) && Grows(t, after, commitUid)
    requires forall v <- t.versions :: v.commitUid != commitUid
    ensures SortBy(NatLeq, VersionUids(after.versions, commitUid)) == Map(VersionUid, Added(t.versions, after.versions))
    ensures SortBy(NatLeq, IntentUids(after.intents, after.versions, commitUid)) == Map(IntentUid, Added(t.intents, after.intents))
  {
    hide SortBy, VersionUids, IntentUids;
    AddedAre(t, after, commitUid);
    OwnVersionUids(t.versions, Added(t.versions, after.versions), commitUid);
    OwnIntentUids(t.intents, Added(t.intents, after.intents), after.versions, commitUid);
    VersionUidsAscend(after.versions, commitUid, after.nextUid);
    IntentUidsAscend(after.intents, after.versions, commitUid, after.nextUid);
    hide RowsAscend, Ordered, Grows, Added, Map, Ascending;
    AscendingIsSorted(VersionUids(after.versions, commitUid));
    AscendingIsSorted(IntentUids(after.intents, after.versions, commitUid));
  }

  lemma AddedAre(t: Tables, after: Tables, commitUid: nat)
    requires Ordered(t) && Grows(t, after, commitUid)
    requires forall v <- t.versions :: v.commitUid != commitUid
    ensures after.versions == t.versions + Added(t.versions, after.versions)
    ensures after.intents == t.intents + Added(t.intents, after.intents)
    ensures forall v <- Added(t.versions, after.versions) :: v.commitUid == commitUid
    ensures forall i <- t.intents :: !VersionOfCommit(after.versions, i.versionUid, commitUid)
    ensures forall i <- Added(t.intents, after.intents) :: VersionOfCommit(after.versions, i.versionUid, commitUid)
  {
    hide RowsAscend;
    assert after.versions == t.versions + Added(t.versions, after.versions);
    assert forall v <- Added(t.versions, after.versions) :: t.nextUid <= v.uid;
    assert after.intents == t.intents + Added(t.intents, after.intents);
    forall i, v | i in t.intents && v in after.versions && v.commitUid == commitUid ensures v.uid != i.versionUid {
      assert v in t.versions || v in Added(t.versions, after.versions);
    }
  }

  lemma SameVersionsOfCommit(t: Tables, after: Tables, commitUid: nat, other: nat)
    requires Grows(t, after, other) && other != commitUid
    ensures forall u :: VersionOfCommit(t.versions, u, commitUid) <==> VersionOfCommit(after.versions, u, commitUid)
  {
    forall u | VersionOfCommit(t.versions, u, commitUid) ensures VersionOfCommit(after.versions, u, commitUid) {
      VersionStays(t.versions, after.versions, u, commitUid);
    }
    forall u | VersionOfCommit(after.versions, u, commitUid) ensures VersionOfCommit(t.versions, u, commitUid) {
      var j :| 0 <= j < |after.versions| && after.versions[j].uid == u && after.versions[j].commitUid == commitUid;
      assert after.versions[j] == t.versions[j];
    }
  }

  lemma OneCommitPerVersion(t: Tables, versionUid: nat, commitUid: nat, other: nat)
    requires Ordered(t) && other != commitUid && VersionOfCommit(t.versions, versionUid, other)
    ensures !VersionOfCommit(t.versions, versionUid, commitUid)
  {
  }

  /** Another commit's rows do not change what a commit reads back. */
  lemma ReadBackLater(t: Tables, after: Tables, commitUid: nat, other: nat)
    requires Ordered(after) && Grows(t, after, other) && other != commitUid
    ensures VersionUids(after.versions, commitUid) == VersionUids(t.versions, commitUid)
    ensures IntentUids(after.intents, after.versions, commitUid) == IntentUids(t.intents, t.versions, commitUid)
  {
    hide VersionUids, IntentUids;
    var newVersions, newIntents := Added(t.versions, after.versions), Added(t.intents, after.intents);
    assert after.versions == t.versions + newVersions && after.intents == t.intents + newIntents;
    OtherVersionUids(t.versions, newVersions, commitUid);
    SameVersionsOfCommit(t, after, commitUid, other);
    forall i | i in newIntents ensures !VersionOfCommit(after.versions, i.versionUid, commitUid) {
      OneCommitPerVersion(after, i.versionUid, commitUid, other);
    }
    OtherIntentUids(t.intents, newIntents, t.versions, after.versions, commitUid);
  }

  // ---- runs

  lemma AnalysisStepRows(t: Tables, x: Input)
    ensures var after, c := AnalysisStep(t, x), CycleOf(t, x);
            && after.versions == t.versions && after.intents == t.intents
            && t.nextUid <= c.commitUid < after.nextUid
            && after.commits == t.commits
               + [CommitRow(c.commitUid, x.request.snapshotUid, c.stateUid, c.guardianUid, c.scoutUid,
                            FingerprintOf(x.request), x.snapshot.asOf)]
  {
    hide RiskOf, OpportunityOf, ChannelsOf, Moves, Previous, NextProjection, FingerprintOf;
  }

  lemma CommitForSnoc(commits: seq<CommitRow>, row: CommitRow, snapshotUid: string)
    ensures CommitFor(commits + [row], snapshotUid)
            == if row.snapshotUid == snapshotUid then Some(row) else CommitFor(commits, snapshotUid)
  {
    assert (commits + [row])[..|commits|] == commits;
  }

  lemma {:induction false} CommitForMember(commits: seq<CommitRow>, snapshotUid: string)
    ensures CommitFor(commits, snapshotUid).Some? ==>
              CommitFor(commits, snapshotUid).value in commits && CommitFor(commits, snapshotUid).value.snapshotUid == snapshotUid
    ensures CommitFor(commits, snapshotUid).None? ==> forall c <- commits :: c.snapshotUid != snapshotUid
  {
    if commits != [] {
      CommitForMember(commits[..|commits| - 1], snapshotUid);
      assert commits == commits[..|commits| - 1] + [commits[|commits| - 1]];
    }
  }

  lemma GrowsKeepsCommits(t: Tables, after: Tables, commitUid: nat)
    requires Grows(t, after, commitUid)
    ensures t.commits == after.commits && t.nextUid <= after.nextUid
  {
  }

  lemma CommitStepOrdered(t: Tables, x: Input)
    requires Ordered(t)
    ensures Ordered(CommitStep(t, x))
    ensures CommitStep(t, x).versions == EventsStep(AnalysisStep(t, x), CycleOf(t, x)).versions
    ensures CommitStep(t, x).intents == EventsStep(AnalysisStep(t, x), CycleOf(t, x)).intents
    ensures CommitStep(t, x).commits == AnalysisStep(t, x).commits
    ensures Ordered(AnalysisStep(t, x))
    ensures Grows(AnalysisStep(t, x), EventsStep(AnalysisStep(t, x), CycleOf(t, x)), CycleOf(t, x).commitUid)
    ensures Ordered(EventsStep(AnalysisStep(t, x), CycleOf(t, x)))
  {
    AnalysisStepRows(t, x);
    hide AnalysisStep, EventsStep, CycleOf, ResultOfCommit, FingerprintOf, Grows, RowsAscend;
    OrderedEvents(AnalysisStep(t, x), CycleOf(t, x));
    GrowsKeepsCommits(AnalysisStep(t, x), EventsStep(AnalysisStep(t, x), CycleOf(t, x)), CycleOf(t, x).commitUid);
  }

  /** The new commit reads back as the result it returned. */
  lemma NewReadsBack(t: Tables, x: Input)
    requires Ordered(t)
    ensures Existing(CommitStep(t, x), x.request.snapshotUid) == Some((FingerprintOf(x.request), ResultOfCommit(t, x)))
  {
    CommitStepOrdered(t, x);
    AnalysisStepRows(t, x);
    hide CommitStep, AnalysisStep, EventsStep, CycleOf, Grows, RowsAscend, VersionUids, IntentUids, FingerprintOf,
         Added, Map, SortBy;
    var t0, c := AnalysisStep(t, x), CycleOf(t, x);
    CommitForSnoc(t.commits, t0.commits[|t.commits|], x.request.snapshotUid);
    ReadBackNow(t0, EventsStep(t0, c), c.commitUid);
  }

  /** Every other commit reads back as before. */
  lemma OldReadsBack(t: Tables, x: Input, snapshotUid: string)
    requires Ordered(t) && snapshotUid != x.request.snapshotUid
    ensures Existing(CommitStep(t, x), snapshotUid) == Existing(t, snapshotUid)
  {
    CommitStepOrdered(t, x);
    AnalysisStepRows(t, x);
    hide CommitStep, AnalysisStep, EventsStep, CycleOf, Grows, RowsAscend, VersionUids, IntentUids, FingerprintOf,
         SortBy, CommitFor;
    var t0, c := AnalysisStep(t, x), CycleOf(t, x);
    CommitForSnoc(t.commits, t0.commits[|t.commits|], snapshotUid);
    CommitForMember(t.commits, snapshotUid);
    var row := CommitFor(t.commits, snapshotUid);
    if row.Some? {
      ReadBackLater(t0, EventsStep(t0, c), row.value.uid, c.commitUid);
    }
  }

  lemma {:induction false} OrderedRun(log: seq<Input>)
    ensures Ordered(Replay(log))
  {
    if log != [] {
      hide CommitStep, Ordered;
      OrderedRun(log[..|log| - 1]);
      CommitStepOrdered(Replay(log[..|log| - 1]), log[|log| - 1]);
    }
  }

  /** The result that commit number i of the run returned. */
  function ResultAt(log: seq<Input>, i: nat): CommitResult
    requires i < |log|
  {
    ResultOfCommit(Replay(log[..i]), log[i])
  }

  /** One commit row for each commit of the run, in its order. */
  ghost predicate RowPerCommit(commits: seq<CommitRow>, log: seq<Input>) {
    |commits| == |log|
    && forall i :: 0 <= i < |log| ==> commits[i].snapshotUid == log[i].request.snapshotUid
  }

  lemma RowPerCommitSnoc(commits: seq<CommitRow>, row: CommitRow, log: seq<Input>)
    requires log != [] && RowPerCommit(commits, log[..|log| - 1])
    requires row.snapshotUid == log[|log| - 1].request.snapshotUid
    ensures RowPerCommit(commits + [row], log)
  {
  }

  lemma CommitAddsRow(t: Tables, x: Input)
    requires Ordered(t)
    ensures var rows := CommitStep(t, x).commits;
            |rows| == |t.commits| + 1 && rows == t.commits + [rows[|t.commits|]]
            && rows[|t.commits|].snapshotUid == x.request.snapshotUid
  {
    AnalysisStepRows(t, x);
    CommitStepOrdered(t, x);
    hide CommitStep, AnalysisStep, CycleOf, Ordered, Grows, FingerprintOf;
  }

  lemma {:induction false} SnapshotsOfRun(log: seq<Input>)
    ensures RowPerCommit(Replay(log).commits, log)
  {
    if log != [] {
      hide CommitStep, Ordered, RowPerCommit;
      var before, x := log[..|log| - 1], log[|log| - 1];
      SnapshotsOfRun(before);
      OrderedRun(before);
      CommitAddsRow(Replay(before), x);
      RowCount(Replay(before).commits, before);
      RowPerCommitSnoc(Replay(before).commits, Replay(log).commits[|log| - 1], log);
    }
  }

  lemma RowCount(commits: seq<CommitRow>, log: seq<Input>)
    requires RowPerCommit(commits, log)
    ensures |commits| == |log|
  {
  }

  /** At any later time of any run, each commit reads back as the result it returned. */
  lemma {:induction false} ReadsBack(log: seq<Input>, i: nat)
    requires Accepted(log) && i < |log|
    ensures Existing(Replay(log), log[i].request.snapshotUid)
            == Some((FingerprintOf(log[i].request), ResultAt(log, i)))
  {
    hide CommitStep, ResultOfCommit, FingerprintOf, Ordered, Existing;
    var before, x := log[..|log| - 1], log[|log| - 1];
    OrderedRun(before);
    if i == |log| - 1 {
      NewReadsBack(Replay(before), x);
    } else {
      ReadsBack(before, i);
      assert before[..i] == log[..i];
      SnapshotsOfRun(before);
      OldReadsBack(Replay(before), x, log[i].request.snapshotUid);
    }
  }

  /** Nothing is read back for a snapshot that no commit of the run used. */
  lemma NothingElseReadsBack(log: seq<Input>, snapshotUid: string)
    requires forall i :: 0 <= i < |log| ==> log[i].request.snapshotUid != snapshotUid
    ensures Existing(Replay(log), snapshotUid) == None
  {
    hide Replay;
    SnapshotsOfRun(log);
    CommitForMember(Replay(log).commits, snapshotUid);
  }
}