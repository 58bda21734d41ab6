/** Every query can still be answered, whatever happened before. */
module QueryRecovery {
  import opened Wrappers
  import opened Domain
  import opened Idempotency
  import opened LeaseProtocol
  import opened LeaseOutcomes
  import opened LeaseRecovery
  import opened QueryProtocol
  import L = QueryLimit
  import Q = QueryRecords
  import QS = QueryService

  // ---- whose records they are

  /** The record is that of the operation of the key, for the key's owner and what it requested. */
  predicate OwnedBy(s: Queries, uid: nat, key: Key) {
    && uid in s.records && key in s.protocol.table && s.protocol.table[key].operationUid == uid
    && s.records[uid].owner == key.owner && s.records[uid].subject == s.protocol.table[key].request
  }

  ghost predicate RecordsOwned(s: Queries) { forall uid <- s.records :: exists key :: OwnedBy(s, uid, key) }

  /** Rows keep their operation and request. */
  predicate RowsKept<R>(before: State<R>, after: State<R>) {
    forall key <- before.table ::
      && key in after.table && after.table[key].operationUid == before.table[key].operationUid
      && after.table[key].request == before.table[key].request
  }

  lemma StepKeepsRows<R>(s: State<R>, step: Step<R>)
    ensures RowsKept(s, Apply(s, step))
  {
    match step
    case RunClaim(c) => ClaimKeepsRows(s, c);
    case RunComplete(c, ending) => CompleteKeepsRows(s, c, ending);
    case _ =>
  }

  lemma ClaimKeepsRows<R>(s: State<R>, c: nat)
    ensures RowsKept(s, RunClaimStep(s, c))
  {
  }

  lemma CompleteKeepsRows<R>(s: State<R>, c: nat, ending: Ending)
    ensures RowsKept(s, RunCompleteStep(s, c, ending))
  {
    hide RowCheck;
  }

  lemma QueryKeepsRows(s: Queries, step: QueryStep)
    ensures RowsKept(s.protocol, ApplyQuery(s, step).protocol)
  {
    hide Apply, RunCompleteStep, Q.PrepareAnswer, Q.PreparedRecord, Q.AfterFailure, BeginCompleteStep;
    match step
    case Common(t) => StepKeepsRows(s.protocol, t);
    case Finish(c) => CompleteKeepsRows(s.protocol, c, Normal);
    case CallComplete(c) => CallKeepsRows(s, c);
    case Die(c) =>
      CompleteKeepsRows(s.protocol, c, Dies);
      StepKeepsRows(if c in s.dead then s.protocol else RunCompleteStep(s.protocol, c, Dies), Crash);
    case _ =>
  }

  lemma CallKeepsRows(s: Queries, c: nat)
    ensures RowsKept(s.protocol, CallCompleteStep(s, c).protocol)
  {
  }

  /** A record is created only by a client that holds the claim of its operation. */
  lemma OnlyPrepareCreates(s: Queries, step: QueryStep, uid: nat)
    requires uid !in s.records && uid in ApplyQuery(s, step).records
    ensures step.Prepare? && PhaseOf(s.protocol, step.client).Holding?
    ensures var claim := PhaseOf(s.protocol, step.client).claim; var after := ApplyQuery(s, step);
            && after.protocol == s.protocol && uid == claim.operationUid
            && after.records[uid].owner == claim.key.owner && after.records[uid].subject == claim.request
  {
    hide Apply, RunCompleteStep, BeginCompleteStep, WithinRate;
  }

  lemma StepKeepsOwned(s: Queries, step: QueryStep)
    requires ClaimsStand(s.protocol) && QueryInv(s) && RecordsOwned(s)
    ensures RecordsOwned(ApplyQuery(s, step))
  {
    hide ApplyQuery, QueryInv;
    var after := ApplyQuery(s, step);
    forall uid | uid in after.records ensures exists key :: OwnedBy(after, uid, key) {
      if uid in s.records {
        var key :| OwnedBy(s, uid, key);
        RecordsKept(s, step, uid);
        QueryKeepsRows(s, step);
        assert OwnedBy(after, uid, key);
      } else {
        OnlyPrepareCreates(s, step, uid);
        var claim := PhaseOf(s.protocol, step.client).claim;
        assert Claimed(s.protocol, claim);
        assert OwnedBy(after, uid, claim.key);
      }
    }
  }

  lemma {:induction false} OwnedOfRun(now: int, limit: nat, steps: seq<QueryStep>)
    ensures RecordsOwned(RunQueries(now, limit, steps))
  {
    if steps != [] {
      hide QueryInv, RecordsOwned, ApplyQuery, RowsChecked, Drawn, Apart, ClaimsStand, AllCounted, GrantsDiffer, Timely,
           AllAnswered, PublishedOnce;
      var before := steps[..|steps| - 1];
      OwnedOfRun(now, limit, before);
      QueriesOfRun(now, limit, before);
      ProtocolKeepsPromises(now, limit, before);
      StepKeepsOwned(RunQueries(now, limit, before), steps[|steps| - 1]);
    }
  }

  // ---- leases in time

  lemma QueryStepKeepsInTime(s: Queries, step: QueryStep)
    requires InTime(s.protocol)
    ensures InTime(ApplyQuery(s, step).protocol)
  {
    hide InTime, Apply, RunCompleteStep, BeginCompleteStep, Q.PrepareAnswer, Q.PreparedRecord, Q.AfterFailure;
    match step
    case Common(t) => StepKeepsInTime(s.protocol, t);
    case CallComplete(c) => CallKeepsInTime(s, c);
    case Finish(c) => CompleteKeepsInTime(s.protocol, c, Normal);
    case Die(c) =>
      CompleteKeepsInTime(s.protocol, c, Dies);
      StepKeepsInTime(if c in s.dead then s.protocol else RunCompleteStep(s.protocol, c, Dies), Crash);
    case _ =>
  }

  lemma CallKeepsInTime(s: Queries, c: nat)
    requires InTime(s.protocol)
    ensures InTime(CallCompleteStep(s, c).protocol)
  {
  }

  lemma {:induction false} QueriesInTime(now: int, limit: nat, steps: seq<QueryStep>)
    ensures InTime(RunQueries(now, limit, steps).protocol)
  {
    if steps != [] {
      hide InTime, ApplyQuery;
      QueriesInTime(now, limit, steps[..|steps| - 1]);
      QueryStepKeepsInTime(RunQueries(now, limit, steps[..|steps| - 1]), steps[|steps| - 1]);
    }
  }

  // ---- one more attempt

  /** The process restarts, five minutes pass, and a new client goes through the route alone. */
  function Recovery(c: nat, key: Key, subject: string, official: Option<string>, content: string): seq<QueryStep> {
    [Die(c), Common(Tick(300_000_000)), Common(Begin(c, key, subject)), Common(RunClaim(c)), TakeLock(c),
     Prepare(c, official), Conclude(c, content), CallComplete(c), QueryStep.Finish(c)]
  }

  function Then(s: Queries, more: seq<QueryStep>): Queries {
    if more == [] then s else ApplyQuery(Then(s, more[..|more| - 1]), more[|more| - 1])
  }

  lemma {:induction false} RunThen(now: int, limit: nat, steps: seq<QueryStep>, more: seq<QueryStep>)
    ensures RunQueries(now, limit, steps + more) == Then(RunQueries(now, limit, steps), more)
  {
    hide ApplyQuery;
    if more == [] {
      assert steps + more == steps;
    } else {
      RunThen(now, limit, steps, more[..|more| - 1]);
      assert (steps + more)[..|steps + more| - 1] == steps + more[..|more| - 1];
    }
  }

  lemma ThenNext(s: Queries, r: seq<QueryStep>, i: nat)
    requires i < |r|
    ensures Then(s, r[..i + 1]) == ApplyQuery(Then(s, r[..i]), r[i])
  {
    hide ApplyQuery;
    assert r[..i + 1][..i] == r[..i];
  }

  lemma NoMore(s: Queries)
    ensures Then(s, []) == s
  {
  }

  /** The state once the client was granted the key. */
  function Reclaimed(s: Queries, c: nat, key: Key, subject: string): Queries {
    s.(protocol := Restart(s.protocol, c, key, subject), lock := None, dead := s.dead + s.protocol.clients.Keys)
  }

  lemma RestartSteps(s: Queries, c: nat, key: Key, subject: string)
    requires c !in s.protocol.clients && c !in s.dead
    ensures var s1 := ApplyQuery(s, Die(c));
            ApplyQuery(ApplyQuery(ApplyQuery(s1, Common(Tick(300_000_000))), Common(Begin(c, key, subject))),
                       Common(RunClaim(c)))
            == Reclaimed(s, c, key, subject)
  {
    DeathLeaves(s, c);
    hide RunClaimStep, BeginStep, DieStep;
  }

  /** When the process dies, a client that never came loses nothing. */
  lemma DeathLeaves(s: Queries, c: nat)
    requires c !in s.protocol.clients && c !in s.dead
    ensures DieStep(s, c)
            == s.(protocol := Apply(s.protocol, Crash), lock := None, dead := s.dead + s.protocol.clients.Keys)
  {
    assert RunCompleteStep(s.protocol, c, Dies) == s.protocol;
    hide RunCompleteStep;
  }

  /** From the granted key on. */
  function Attempt(s: Queries, c: nat, official: Option<string>, content: string): Queries {
    FinishStep(CallCompleteStep(ConcludeStep(PrepareStep(TakeLockStep(s, c), c, official), c, content), c), c)
  }

  lemma FirstSteps(s: Queries, c: nat, key: Key, subject: string, r: seq<QueryStep>)
    requires c !in s.protocol.clients && c !in s.dead
    requires |r| >= 4 && r[0] == Die(c) && r[1] == Common(Tick(300_000_000)) && r[2] == Common(Begin(c, key, subject))
    requires r[3] == Common(RunClaim(c))
    ensures Then(s, r[..4]) == Reclaimed(s, c, key, subject)
  {
    hide ApplyQuery, Then, Reclaimed;
    NoMore(s);
    assert r[..0] == [];
    ThenNext(s, r, 0);
    ThenNext(s, r, 1);
    ThenNext(s, r, 2);
    ThenNext(s, r, 3);
    RestartSteps(s, c, key, subject);
  }

  lemma LastSteps(s: Queries, c: nat, official: Option<string>, content: string, r: seq<QueryStep>)
    requires |r| == 9 && r[4] == TakeLock(c) && r[5] == Prepare(c, official) && r[6] == Conclude(c, content)
    requires r[7] == CallComplete(c) && r[8] == QueryStep.Finish(c)
    ensures Then(s, r) == Attempt(Then(s, r[..4]), c, official, content)
  {
    hide TakeLockStep, PrepareStep, ConcludeStep, CallCompleteStep, FinishStep, Then;
    assert r[..9] == r;
    ThenNext(s, r, 4);
    ThenNext(s, r, 5);
    ThenNext(s, r, 6);
    ThenNext(s, r, 7);
    ThenNext(s, r, 8);
  }

  lemma RecoverySteps(
      s: Queries, c: nat, key: Key, subject: string, official: Option<string>, content: string)
    requires c !in s.protocol.clients && c !in s.dead
    ensures Then(s, Recovery(c, key, subject, official, content))
            == Attempt(Reclaimed(s, c, key, subject), c, official, content)
  {
    hide Then, Attempt, Reclaimed;
    FirstSteps(s, c, key, subject, Recovery(c, key, subject, official, content));
    LastSteps(s, c, official, content, Recovery(c, key, subject, official, content));
  }

  // ---- what the attempt comes to

  /** The client holds the key under the row's lease, and nobody is at work. */
  ghost predicate Ready(s: Queries, c: nat) {
    && PhaseOf(s.protocol, c).Holding? && c !in s.work && c !in s.dead && s.lock == None
    && var claim := PhaseOf(s.protocol, c).claim;
       && claim.leaseUid.Some? && claim.key in s.protocol.table
       && var row := s.protocol.table[claim.key];
          && RowCheck(row) && row.state == InProgress && row.leaseUid == claim.leaseUid
          && row.request == claim.request && row.operationUid == claim.operationUid
          && row.updatedAt == s.protocol.now
  }

  /** The answer: stored before, or drawn from the source pinned before or from the official one. */
  function AnswerFor(found: Option<Q.Record>, uid: nat, subject: string, official: Option<string>, content: string)
    : Option<Q.Answer>
  {
    if found.Some? && found.value.status == Q.Completed then found.value.response
    else if found.Some? then Some(Q.Answer(uid, subject, found.value.source, content))
    else if official.Some? then Some(Q.Answer(uid, subject, official.value, content))
    else None
  }

  /** Its record can be worked on: it is there and the owner's own, or it may be created. */
  predicate Workable(s: Queries, claim: Claim<Q.Answer>, official: Option<string>) {
    var found := FoundRecord(s, claim);
    if found.Some? then Q.RecordCheck(found.value) && Q.BelongsTo(found.value, claim.key.owner, claim.request)
    else official.Some? && WithinRate(s, claim.key.owner, s.protocol.now)
  }

  /** After locking, preparing and concluding, the client has its answer. */
  lemma AnalysisAnswers(s: Queries, c: nat, official: Option<string>, content: string)
    requires Ready(s, c) && Workable(s, PhaseOf(s.protocol, c).claim, official)
    ensures var claim := PhaseOf(s.protocol, c).claim;
            var t := ConcludeStep(PrepareStep(TakeLockStep(s, c), c, official), c, content);
            var answer := AnswerFor(FoundRecord(s, claim), claim.operationUid, claim.request, official, content);
            && t.protocol == s.protocol && t.dead == s.dead && answer.Some?
            && c in t.work && t.work[c] == Analysed(answer.value)
            && IsCompleted(t, claim.operationUid) && t.records[claim.operationUid].response == answer
  {
    hide WithinRate;
    var claim := PhaseOf(s.protocol, c).claim;
    var locked := TakeLockStep(s, c);
    assert IsChecking(locked, c) && locked.work[c] == Checking(s.protocol.now) && locked.records == s.records;
    assert WithinRate(locked, claim.key.owner, s.protocol.now) == WithinRate(s, claim.key.owner, s.protocol.now) by {
      SameRate(s, locked, claim.key.owner);
    }
    hide TakeLockStep, IsChecking;
    var prepared := PrepareStep(locked, c, official);
    assert prepared.protocol == s.protocol && prepared.dead == s.dead;
  }

  lemma SameRate(s: Queries, t: Queries, owner: string)
    requires t.records == s.records && t.limit == s.limit
    ensures WithinRate(t, owner, s.protocol.now) == WithinRate(s, owner, s.protocol.now)
  {
  }

  /** An answer under the current lease is stored. */
  lemma AnswerStored(s: Queries, c: nat, answer: Q.Answer)
    requires PhaseOf(s.protocol, c).Holding? && c !in s.dead && c in s.work && s.work[c] == Analysed(answer)
    requires var claim := PhaseOf(s.protocol, c).claim;
             && claim.leaseUid.Some? && claim.key in s.protocol.table
             && var row := s.protocol.table[claim.key];
                && RowCheck(row) && row.state == InProgress && row.leaseUid == claim.leaseUid
                && row.request == claim.request && row.operationUid == claim.operationUid
                && row.updatedAt == s.protocol.now
    ensures var claim := PhaseOf(s.protocol, c).claim;
            var t := FinishStep(CallCompleteStep(s, c), c);
            && t.records == s.records
            && PhaseOf(t.protocol, c) == Settled(claim.key, claim.request, claim.leaseUid.value, Some(answer))
            && claim.key in t.protocol.table && t.protocol.table[claim.key].state == Completed
            && t.protocol.table[claim.key].response == Some(answer)
  {
    var claim := PhaseOf(s.protocol, c).claim;
    var called := CallCompleteStep(s, c);
    assert PhaseOf(called.protocol, c) == Completing(claim, 200, answer, s.protocol.now);
    assert called.protocol.table == s.protocol.table && called.dead == s.dead;
    hide CallCompleteStep, RowCheck;
    assert Publishes(called.protocol, c) && Commits(called.protocol, c, Normal);
    hide Publishes, Commits;
  }

  lemma AttemptAnswers(s: Queries, c: nat, official: Option<string>, content: string)
    requires Ready(s, c) && Workable(s, PhaseOf(s.protocol, c).claim, official)
    ensures var claim := PhaseOf(s.protocol, c).claim; var t := Attempt(s, c, official, content);
            var answer := AnswerFor(FoundRecord(s, claim), claim.operationUid, claim.request, official, content);
            && answer.Some? && PhaseOf(t.protocol, c).Settled? && PhaseOf(t.protocol, c).answer == answer
            && claim.key in t.protocol.table && t.protocol.table[claim.key].state == Completed
            && t.protocol.table[claim.key].response == answer
            && IsCompleted(t, claim.operationUid) && t.records[claim.operationUid].response == answer
  {
    AnalysisAnswers(s, c, official, content);
    hide TakeLockStep, PrepareStep, ConcludeStep, CallCompleteStep, FinishStep, RowCheck, Workable, AnswerFor;
    var t := ConcludeStep(PrepareStep(TakeLockStep(s, c), c, official), c, content);
    AnswerStored(t, c, t.work[c].answer);
  }

  lemma SettledStays(s: Queries, c: nat, official: Option<string>, content: string)
    requires PhaseOf(s.protocol, c).Settled?
    ensures Attempt(s, c, official, content) == s
  {
  }

  // ---- after any run

  /** What every run leaves a new client to start from. */
  ghost predicate Startable(s: Queries, c: nat, key: Key) {
    && InTime(s.protocol) && RowsChecked(s.protocol) && Drawn(s.protocol) && Apart(s.protocol)
    && c !in s.work && SameResponse(s, key) && (forall uid :: RecordSound(s, uid))
    && RecordsOwned(s) && QS.NoneLater(s.records, s.protocol.now)
  }

  lemma BeforeRecovery(now: int, limit: nat, steps: seq<QueryStep>, c: nat, key: Key)
    requires PhaseOf(RunQueries(now, limit, steps).protocol, c).Idle?
    ensures Startable(RunQueries(now, limit, steps), c, key) && RunQueries(now, limit, steps).limit == limit
  {
    hide RunQueries, InTime, RowsChecked, Drawn, Apart, ClaimsStand, AllCounted, GrantsDiffer, Timely, AllAnswered,
         PublishedOnce, RecordsOwned, QS.Limited, QS.NoneLater, SameResponse, RecordSound;
    QueriesInTime(now, limit, steps);
    QueriesOfRun(now, limit, steps);
    ProtocolKeepsPromises(now, limit, steps);
    OwnedOfRun(now, limit, steps);
    L.RateOfRun(now, limit, steps);
    assert AnswerStands(RunQueries(now, limit, steps), c);
  }

  /** The record of a regained operation is the owner's own; without one, nobody created any in the last minute. */
  lemma RegainedIsWorkable(s: Queries, c: nat, key: Key, subject: string, official: Option<string>)
    requires Startable(s, c, key) && s.limit > 0 && official.Some? && (key in s.protocol.table ==> s.protocol.table[key].request == subject)
    requires Regained(s.protocol, Restart(s.protocol, c, key, subject), c, key, subject)
    requires Restart(s.protocol, c, key, subject).now == s.protocol.now + 300_000_000
    ensures var r := Reclaimed(s, c, key, subject); Workable(r, PhaseOf(r.protocol, c).claim, official)
  {
    hide Restart, InTime, RowsChecked, SameResponse, RowCheck;
    var r := Reclaimed(s, c, key, subject);
    var claim := PhaseOf(r.protocol, c).claim;
    if claim.operationUid in s.records {
      var owner :| OwnedBy(s, claim.operationUid, owner);
      assert RecordSound(s, claim.operationUid);
      assert owner == key;
    } else {
      assert QS.CreatedSince(r.records, claim.key.owner, r.protocol.now - MINUTE) == {};
    }
  }

  lemma RestartTakesTime(s: State<Q.Answer>, c: nat, key: Key, subject: string)
    ensures Restart(s, c, key, subject).now == s.now + 300_000_000
  {
    hide ClaimAnswer, ClaimedRow;
  }

  /**
   * After any run, the query of any key that no other request used is answered by one more attempt, from the
   * source pinned before if there was one.
   */
  lemma QueryRecovers(
    now: int, limit: nat, steps: seq<QueryStep>, c: nat, key: Key, subject: string, official: Option<string>,
    content: string)
    requires var s := RunQueries(now, limit, steps);
             && c !in s.protocol.clients && c !in s.dead && limit > 0 && official.Some?
             && (key in s.protocol.table ==> s.protocol.table[key].request == subject)
    ensures var s := RunQueries(now, limit, steps);
            var t := RunQueries(now, limit, steps + Recovery(c, key, subject, official, content));
            && key in t.protocol.table && t.protocol.table[key].state == Completed
            && PhaseOf(t.protocol, c).Settled? && PhaseOf(t.protocol, c).answer == t.protocol.table[key].response
            && (var uid := t.protocol.table[key].operationUid;
                && IsCompleted(t, uid) && t.records[uid].response == t.protocol.table[key].response
                && (uid in s.records ==> t.records[uid].source == s.records[uid].source))
  {
    hide Restart, Recovery, RunQueries, Then, Startable, Regained, Attempt, Ready, Workable;
    RunThen(now, limit, steps, Recovery(c, key, subject, official, content));
    var s := RunQueries(now, limit, steps);
    RecoverySteps(s, c, key, subject, official, content);
    BeforeRecovery(now, limit, steps, c, key);
    StartFacts(s, c, key);
    RestartGrants(s.protocol, c, key, subject);
    var r := Reclaimed(s, c, key, subject);
    var t := Attempt(r, c, official, content);
    if key in s.protocol.table && s.protocol.table[key].state == Completed {
      SettledStays(r, c, official, content);
      StoredAlready(s, c, key);
    } else {
      RestartTakesTime(s.protocol, c, key, subject);
      RegainedIsWorkable(s, c, key, subject, official);
      RegainedIsReady(s, c, key, subject);
      AttemptAnswers(r, c, official, content);
      AttemptKeeps(r, c, official, content);
    }
  }

  lemma StartFacts(s: Queries, c: nat, key: Key)
    requires Startable(s, c, key)
    ensures InTime(s.protocol) && RowsChecked(s.protocol)
  {
  }

  lemma StoredAlready(s: Queries, c: nat, key: Key)
    requires Startable(s, c, key)
    requires key in s.protocol.table && s.protocol.table[key].state == Completed
    ensures var uid := s.protocol.table[key].operationUid;
            IsCompleted(s, uid) && s.records[uid].response == s.protocol.table[key].response
  {
    hide InTime, RowsChecked, Drawn, Apart;
    assert Done(s.protocol, key);
  }

  lemma RegainedIsReady(s: Queries, c: nat, key: Key, subject: string)
    requires Startable(s, c, key) && c !in s.protocol.clients && c !in s.dead
    requires Regained(s.protocol, Restart(s.protocol, c, key, subject), c, key, subject)
    ensures var r := Reclaimed(s, c, key, subject);
            && Ready(r, c) && PhaseOf(r.protocol, c).claim.key == key
            && r.protocol.table[key].operationUid == PhaseOf(r.protocol, c).claim.operationUid
  {
    hide Restart, InTime, RowsChecked, Drawn, Apart, RecordsOwned, SameResponse, RowCheck;
  }

  /** The attempt keeps the operation of the key, and the source of each record. */
  lemma AttemptKeeps(s: Queries, c: nat, official: Option<string>, content: string)
    requires PhaseOf(s.protocol, c).Holding?
    ensures var t := Attempt(s, c, official, content);
            RowsKept(s.protocol, t.protocol) && SourcesKept(s, t)
  {
    hide TakeLockStep, PrepareStep, ConcludeStep, CallCompleteStep, RunCompleteStep;
    var q1 := TakeLockStep(s, c);
    var q2 := PrepareStep(q1, c, official);
    var q3 := ConcludeStep(q2, c, content);
    var q4 := CallCompleteStep(q3, c);
    LockKeeps(s, c);
    PrepareKeeps(q1, c, official);
    ConcludeKeeps(q2, c, content);
    CallKeeps(q3, c);
    CallKeepsRows(q3, c);
    CompleteKeepsRows(q4.protocol, c, Normal);
  }

  ghost predicate SourcesKept(s: Queries, t: Queries) {
    forall uid <- s.records :: uid in t.records && t.records[uid].source == s.records[uid].source
  }

  lemma LockKeeps(s: Queries, c: nat)
    ensures TakeLockStep(s, c).protocol == s.protocol && TakeLockStep(s, c).records == s.records
  {
  }

  lemma PrepareKeeps(s: Queries, c: nat, official: Option<string>)
    ensures PrepareStep(s, c, official).protocol == s.protocol && SourcesKept(s, PrepareStep(s, c, official))
  {
    hide WithinRate, IsChecking;
  }

  lemma ConcludeKeeps(s: Queries, c: nat, content: string)
    ensures ConcludeStep(s, c, content).protocol == s.protocol && SourcesKept(s, ConcludeStep(s, c, content))
  {
  }

  lemma CallKeeps(s: Queries, c: nat)
    ensures CallCompleteStep(s, c).records == s.records
  {
  }
}
