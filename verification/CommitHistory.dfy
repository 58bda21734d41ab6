/** Whole runs of commits: the lifecycle of each subject. */
module CommitHistory {
  import opened Wrappers
  import opened Sequences
  import opened Domain
  import opened Lifecycles
  import opened CommitTables
  import opened EventHistory

  // ---- lifecycle

  function CommitCount(log: seq<Input>, subject: string): nat {
    if log == [] then 0
    else CommitCount(log[..|log| - 1], subject) + (if log[|log| - 1].snapshot.subject == subject then 1 else 0)
  }

  /** The lifecycles of the subject's commits that had one: those that were AVAILABLE. */
  function LifecyclesOf(log: seq<Input>, subject: string): seq<Lifecycle> {
    if log == [] then []
    else
      var x := log[|log| - 1];
      LifecyclesOf(log[..|log| - 1], subject)
      + (if x.snapshot.subject == subject && x.request.lifecycle.Some? then [x.request.lifecycle.value] else [])
  }

  ghost predicate SubjectFollows(t: Tables, subject: string, commits: nat, states: seq<Lifecycle>) {
    Follows(Lookup(t.projections, subject), TransitionsOf(t.transitions, subject), commits, states)
  }

  lemma TransitionsOfSnoc(transitions: seq<Transition>, x: Transition, subject: string)
    ensures TransitionsOf(transitions + [x], subject)
            == TransitionsOf(transitions, subject) + (if x.subject == subject then [x] else [])
  {
    assert (transitions + [x])[..|transitions|] == transitions;
  }

  lemma StateStepOthers(t: Tables, x: Input, subject: string)
    requires subject != x.snapshot.subject
    ensures var after := StateStep(t, x);
            && Lookup(after.projections, subject) == Lookup(t.projections, subject)
            && TransitionsOf(after.transitions, subject) == TransitionsOf(t.transitions, subject)
  {
    hide NextProjection, Previous;
    var after := StateStep(t, x);
    if after.transitions == t.transitions + [] {
      assert after.transitions == t.transitions;
    } else {
      TransitionsOfSnoc(t.transitions, after.transitions[|t.transitions|], subject);
    }
  }

  lemma StateStepOwn(t: Tables, x: Input, commits: nat, states: seq<Lifecycle>)
    requires SubjectFollows(t, x.snapshot.subject, commits, states)
    requires !IllegalMove(Previous(Lookup(t.projections, x.snapshot.subject)), x.request.lifecycle)
    ensures SubjectFollows(
              StateStep(t, x), x.snapshot.subject, commits + 1,
              states + (if x.request.lifecycle.Some? then [x.request.lifecycle.value] else []))
  {
    hide Follows, NextProjection, Previous, IllegalMove, TransitionsOf;
    var subject, lifecycle := x.snapshot.subject, x.request.lifecycle;
    var current, path := Lookup(t.projections, subject), TransitionsOf(t.transitions, subject);
    var after := StateStep(t, x);
    if Moves(current, lifecycle) {
      var move := after.transitions[|t.transitions|];
      TransitionsOfSnoc(t.transitions, move, subject);
      MovesOn(current, path, commits, states, x.request.availability, lifecycle, t.nextUid, x.snapshot.asOf, move);
    } else {
      assert after.transitions == t.transitions;
      StaysTheSame(current, path, commits, states, x.request.availability, lifecycle, t.nextUid, x.snapshot.asOf);
    }
  }

  ghost predicate SameState(a: Tables, b: Tables) { a.projections == b.projections && a.transitions == b.transitions }

  lemma {:induction false} IntentsLeaveState(
      t: Tables, c: Cycle, kind: IntentKind, v: EventVersion, channels: seq<Channel>)
    ensures SameState(t, IntentStep(t, c, kind, v, channels))
  {
    if channels != [] { IntentsLeaveState(t, c, kind, v, channels[..|channels| - 1]); }
  }

  lemma EventLeavesState(t: Tables, c: Cycle, kind: EventKind)
    ensures SameState(t, EventStep(t, c, kind))
  {
    hide VersionOf, Desired, IsLive, IntentStep, IntentKindOf, EventUidOf;
    if !Idle(t, c, kind) {
      var t1 := EventRowStep(t, c, kind);
      var key := EventKey(c.subject, kind);
      var v := VersionOf(t1.nextUid, EventUidOf(t, key), Lookup(t.current, key), c, kind);
      IntentsLeaveState(VersionStep(t1, key, v), c, IntentKindOf(kind, Desired(kind, c.risk, c.opportunity)), v, c.channels);
    }
  }

  lemma CommitStepState(t: Tables, x: Input)
    ensures SameState(StateStep(t, x), CommitStep(t, x))
  {
    hide StateStep, EventStep, RiskOf, OpportunityOf, FingerprintOf, ResultOfCommit, CycleOf;
    var t0, c := AnalysisStep(t, x), CycleOf(t, x);
    EventLeavesState(t0, c, GuardianRisk);
    EventLeavesState(EventStep(t0, c, GuardianRisk), c, ScoutWatch);
  }

  lemma CommitStepFollows(t: Tables, x: Input, subject: string, commits: nat, states: seq<Lifecycle>)
    requires !IllegalMove(Previous(Lookup(t.projections, x.snapshot.subject)), x.request.lifecycle)
    requires SubjectFollows(t, subject, commits, states)
    ensures SubjectFollows(
              CommitStep(t, x), subject, commits + (if x.snapshot.subject == subject then 1 else 0),
              states
              + (if x.snapshot.subject == subject && x.request.lifecycle.Some? then [x.request.lifecycle.value] else []))
  {
    hide Follows, CommitStep, StateStep, IllegalMove, Previous, TransitionsOf;
    CommitStepState(t, x);
    if subject == x.snapshot.subject {
      StateStepOwn(t, x, commits, states);
    } else {
      StateStepOthers(t, x, subject);
      assert states + [] == states;
    }
  }

  lemma AcceptableMove(t: Tables, x: Input)
    requires Acceptable(t, x)
    ensures !IllegalMove(Previous(Lookup(t.projections, x.snapshot.subject)), x.request.lifecycle)
  {
    hide IllegalMove, Previous, ActualVersion, ChannelsOf;
  }

  lemma HistorySnoc(log: seq<Input>, x: Input, subject: string)
    ensures CommitCount(log + [x], subject) == CommitCount(log, subject) + (if x.snapshot.subject == subject then 1 else 0)
    ensures LifecyclesOf(log + [x], subject)
            == LifecyclesOf(log, subject)
               + (if x.snapshot.subject == subject && x.request.lifecycle.Some? then [x.request.lifecycle.value] else [])
  {
    assert (log + [x])[..|log|] == log;
  }

  ghost predicate LogFollows(log: seq<Input>, subject: string) {
    SubjectFollows(Replay(log), subject, CommitCount(log, subject), LifecyclesOf(log, subject))
  }

  lemma NextFollows(log: seq<Input>, x: Input, subject: string)
    requires Accepted(log + [x]) && LogFollows(log, subject)
    ensures LogFollows(log + [x], subject)
  {
    hide CommitStep, Acceptable, SubjectFollows, IllegalMove, Previous, Accepted, Replay, CommitCount, LifecyclesOf;
    ReplaySnoc(log, x);
    HistorySnoc(log, x, subject);
    AcceptableMove(Replay(log), x);
    CommitStepFollows(Replay(log), x, subject, CommitCount(log, subject), LifecyclesOf(log, subject));
  }

  lemma NothingFollows(subject: string)
    ensures LogFollows([], subject)
  {
  }

  /**
   * In every run of accepted commits, the subject's transitions are the lifecycles of its AVAILABLE
   * commits without repetitions, joined into one legal path across the gaps; the projection holds
   * the last of them and counts the subject's commits.
   */
  lemma {:induction false} LifecycleOfRun(log: seq<Input>, subject: string)
    requires Accepted(log)
    ensures LogFollows(log, subject)
  {
    hide LogFollows, Acceptable, Replay;
    if log == [] {
      NothingFollows(subject);
    } else {
      LifecycleOfRun(log[..|log| - 1], subject);
      assert log[..|log| - 1] + [log[|log| - 1]] == log;
      NextFollows(log[..|log| - 1], log[|log| - 1], subject);
    }
  }

  /** Optimistic locking: the k-th commit of a subject is accepted only if it expects version k. */
  lemma VersionIsCommitCount(log: seq<Input>, i: nat)
    requires Accepted(log) && i < |log|
    ensures log[i].request.expectedVersion == CommitCount(log[..i], log[i].snapshot.subject)
  {
    hide Replay, CommitCount, LifecyclesOf, Acceptable;
    Prefix(log, i);
    Prefix(log, i + 1);
    assert log[..i + 1] == log[..i] + [log[i]];
    ReplaySnoc(log[..i], log[i]);
    LifecycleOfRun(log[..i], log[i].snapshot.subject);
    AcceptableVersion(Replay(log[..i]), log[i]);
    FollowsVersion(log[..i], log[i].snapshot.subject);
  }

  lemma AcceptableVersion(t: Tables, x: Input)
    requires Acceptable(t, x)
    ensures ActualVersion(Lookup(t.projections, x.snapshot.subject)) == x.request.expectedVersion
  {
    hide IllegalMove, Previous, ActualVersion, ChannelsOf;
  }

  lemma FollowsVersion(log: seq<Input>, subject: string)
    requires LogFollows(log, subject)
    ensures ActualVersion(Lookup(Replay(log).projections, subject)) == CommitCount(log, subject)
  {
    hide Replay, CommitCount, LifecyclesOf, TransitionsOf, LegalPath;
  }
}
