/**
 * The analysis query route end to end: a claim, one analysis under the service's lock, completion of
 * the query record, completion of the claim; with retries, failures, and crashes of the process.
 */
module QueryProtocol {
  import opened Wrappers
  import opened Domain
  import opened Idempotency
  import opened LeaseProtocol
  import opened LeaseOutcomes
  import Q = QueryRecords
  import QS = QueryService

  /** A client checks the rate at its latest reading of the clock, then analyses the source it is given. */
  datatype Work =
    | Checking(readAt: int)
    | Analysing(source: string)
    | Analysed(answer: Q.Answer)
    | Rejected                    // the analysis raised before or in its work

  /** `dead` are the clients that a crash of the process took with it. */
  datatype Queries = Queries(
    protocol: State<Q.Answer>, records: map<nat, Q.Record>, completions: seq<nat>, lock: Option<nat>,
    work: map<nat, Work>, dead: set<nat>, limit: nat)

  datatype QueryStep =
    | Common(step: Step<Q.Answer>)     // any protocol step but completing and crashing
    | TakeLock(client: nat)
    | ReadClock(client: nat)
    | Prepare(client: nat, official: Option<string>)
    | Conclude(client: nat, content: string)
    | Fail(client: nat, error: string)
    | CallComplete(client: nat)
    | Finish(client: nat)
    | Die(client: nat)                 // the process dies, maybe while this client completes

  function ClientOf(t: Step<Q.Answer>): Option<nat> {
    match t
    case Begin(c, _, _) => Some(c)
    case RunClaim(c) => Some(c)
    case BeginComplete(c, _, _) => Some(c)
    case RunComplete(c, _) => Some(c)
    case GiveUp(c) => Some(c)
    case Release(c) => Some(c)
    case _ => None
  }

  /** The record of a claim's operation; its subject is what the claim's request asks for. */
  function FoundRecord(s: Queries, claim: Claim<Q.Answer>): Option<Q.Record> { Lookup(s.records, claim.operationUid) }

  /** A client that finds the lock taken is rejected. */
  function TakeLockStep(s: Queries, c: nat): Queries {
    var p := PhaseOf(s.protocol, c);
    if !p.Holding? || c in s.work || c in s.dead then s
    else if s.lock.Some? then s.(work := s.work[c := Rejected])
    else s.(lock := Some(c), work := s.work[c := Checking(s.protocol.now)])
  }

  predicate IsChecking(s: Queries, c: nat) {
    PhaseOf(s.protocol, c).Holding? && c in s.work && s.work[c].Checking? && s.lock == Some(c) && c !in s.dead
  }

  function ReadClockStep(s: Queries, c: nat): Queries {
    if IsChecking(s, c) then s.(work := s.work[c := Checking(s.protocol.now)]) else s
  }

  /** The owner created fewer records than the limit in the minute before the clock was read. */
  predicate WithinRate(s: Queries, owner: string, readAt: int) {
    |QS.CreatedSince(s.records, owner, readAt - MINUTE)| < s.limit
  }

  /** Finds the record, or creates it within the rate; without anything to analyse the lock is given back. */
  function PrepareStep(s: Queries, c: nat, official: Option<string>): Queries {
    var p := PhaseOf(s.protocol, c);
    if !IsChecking(s, c) then s
    else
      var uid, owner, subject := p.claim.operationUid, p.claim.key.owner, p.claim.request;
      var found, within := FoundRecord(s, p.claim), WithinRate(s, p.claim.key.owner, s.work[c].readAt);
      if found.Some? && !Q.RecordCheck(found.value) then s
      else
        var row := Q.PreparedRecord(found, owner, subject, within, official, s.protocol.now);
        var records := if row.Some? then s.records[uid := row.value] else s.records;
        match Q.PrepareAnswer(found, owner, subject, within, official)
        case Replayed(answer) => s.(lock := None, work := s.work[c := Analysed(answer)])
        case Working(source) => s.(records := records, work := s.work[c := Analysing(source)])
        case Rejected(_) => s.(lock := None, work := s.work[c := Rejected])
  }

  /** Stores the answer unless one is stored, audits it, and gives the lock back. */
  function ConcludeStep(s: Queries, c: nat, content: string): Queries {
    var p := PhaseOf(s.protocol, c);
    if !p.Holding? || c !in s.work || !s.work[c].Analysing? || s.lock != Some(c) || c in s.dead then s
    else
      var uid := p.claim.operationUid;
      var answer := Q.Answer(uid, p.claim.request, s.work[c].source, content);
      if uid !in s.records then s
      else
        var r := s.records[uid];
        var unlocked := s.(lock := None);
        if r.status == Q.Completed && r.response.Some? then unlocked.(work := s.work[c := Analysed(r.response.value)])
        else if r.status != Q.Running then unlocked.(work := s.work[c := Rejected])
        else unlocked.(records := s.records[uid := Q.Finished(r, answer, s.protocol.now)],
                       completions := s.completions + [uid], work := s.work[c := Analysed(answer)])
  }

  /** Marks the record failed unless it is completed, and gives the lock back. */
  function FailStep(s: Queries, c: nat, error: string): Queries {
    var p := PhaseOf(s.protocol, c);
    if !p.Holding? || c !in s.work || s.work[c].Analysed? || c in s.dead then s
    else
      var uid := p.claim.operationUid;
      var row := Q.AfterFailure(FoundRecord(s, p.claim), p.claim.key.owner, p.claim.request, error, s.protocol.now);
      s.(records := if s.lock == Some(c) && row.Some? then s.records[uid := row.value] else s.records,
         lock := if s.lock == Some(c) then None else s.lock,
         work := s.work[c := Rejected])
  }

  function CallCompleteStep(s: Queries, c: nat): Queries {
    var p := PhaseOf(s.protocol, c);
    if !p.Holding? || c !in s.work || !s.work[c].Analysed? || c in s.dead then s
    else s.(protocol := BeginCompleteStep(s.protocol, c, 200, s.work[c].answer))
  }

  function FinishStep(s: Queries, c: nat): Queries {
    if c in s.dead then s else s.(protocol := RunCompleteStep(s.protocol, c, Normal))
  }

  /** The process dies: whoever was under way is gone, and the lock and the reservations with them. */
  function DieStep(s: Queries, c: nat): Queries {
    var after := if c in s.dead then s.protocol else RunCompleteStep(s.protocol, c, Dies);
    s.(protocol := Apply(after, Crash), lock := None, dead := s.dead + s.protocol.clients.Keys)
  }

  function ApplyQuery(s: Queries, step: QueryStep): Queries {
    match step
    case Common(t) =>
      if t.BeginComplete? || t.RunComplete? || t.Crash? || (ClientOf(t).Some? && ClientOf(t).value in s.dead)
         || (t.GiveUp? && !(t.client in s.work && s.work[t.client].Rejected?)) then s
      else s.(protocol := Apply(s.protocol, t))
    case TakeLock(c) => TakeLockStep(s, c)
    case ReadClock(c) => ReadClockStep(s, c)
    case Prepare(c, official) => PrepareStep(s, c, official)
    case Conclude(c, content) => ConcludeStep(s, c, content)
    case Fail(c, error) => FailStep(s, c, error)
    case CallComplete(c) => CallCompleteStep(s, c)
    case Finish(c) => FinishStep(s, c)
    case Die(c) => DieStep(s, c)
  }

  function RunQueries(now: int, limit: nat, steps: seq<QueryStep>): Queries {
    if steps == [] then Queries(Start(now), map[], [], None, map[], {}, limit)
    else ApplyQuery(RunQueries(now, limit, steps[..|steps| - 1]), steps[|steps| - 1])
  }

  // ---- the records

  predicate IsCompleted(s: Queries, uid: nat) { uid in s.records && s.records[uid].status == Q.Completed }

  function CountOf(uids: seq<nat>, uid: nat): nat {
    if uids == [] then 0 else CountOf(uids[..|uids| - 1], uid) + (if uids[|uids| - 1] == uid then 1 else 0)
  }

  /** A record is one the table allows; a completed one answers for itself, from its pinned source. */
  predicate RecordSound(s: Queries, uid: nat) {
    uid in s.records ==>
      var r := s.records[uid];
      && Q.RecordCheck(r)
      && (r.response.Some? ==>
            r.response.value.queryUid == uid && r.response.value.subject == r.subject && r.response.value.source == r.source)
  }

  /** One completion in the audit for each completed query, none for the others. */
  predicate AuditedOnce(s: Queries, uid: nat) { CountOf(s.completions, uid) == if IsCompleted(s, uid) then 1 else 0 }

  /** A record keeps its owner, subject and source; once completed it keeps everything. */
  predicate RecordKept(s: Queries, after: Queries, uid: nat) {
    uid in s.records ==>
      && uid in after.records
      && after.records[uid].owner == s.records[uid].owner && after.records[uid].subject == s.records[uid].subject
      && after.records[uid].source == s.records[uid].source
      && (s.records[uid].status == Q.Completed ==> after.records[uid] == s.records[uid])
  }

  // ---- the clients

  predicate InAnalysis(w: Work) { w.Checking? || w.Analysing? }

  /** A client in an analysis has the lock; once prepared, its record is running on the source it works from. */
  predicate AnalysisStands(s: Queries, c: nat) {
    c in s.work && InAnalysis(s.work[c]) && c !in s.dead ==>
      var p := PhaseOf(s.protocol, c);
      && s.lock == Some(c) && p.Holding?
      && (s.work[c].Analysing? ==>
            && p.claim.operationUid in s.records
            && var r := s.records[p.claim.operationUid];
               && r.status == Q.Running && r.source == s.work[c].source
               && r.owner == p.claim.key.owner && r.subject == p.claim.request)
  }

  /** A client that was answered, or completes its claim, has the stored response of its record. */
  predicate AnswerStands(s: Queries, c: nat) {
    var p := PhaseOf(s.protocol, c);
    && (c in s.work ==> p.Holding? || p.Completing? || p.Settled?)
    && (p.Completing? ==> c in s.work && s.work[c] == Analysed(p.response) && p.status == 200)
    && (c in s.work && s.work[c].Analysed? && (p.Holding? || p.Completing?) ==>
          IsCompleted(s, p.claim.operationUid)
          && s.records[p.claim.operationUid].response == Some(s.work[c].answer))
  }

  predicate LockStands(s: Queries) {
    s.lock.Some? ==>
      s.lock.value in s.work && InAnalysis(s.work[s.lock.value]) && s.lock.value !in s.dead
  }

  /** A completed claim holds the response of its query. */
  predicate SameResponse(s: Queries, key: Key) {
    Done(s.protocol, key) ==>
      IsCompleted(s, s.protocol.table[key].operationUid)
      && s.records[s.protocol.table[key].operationUid].response == s.protocol.table[key].response
  }

  ghost predicate QueryInv(s: Queries) {
    && (forall uid :: RecordSound(s, uid)) && (forall uid :: AuditedOnce(s, uid))
    && (forall c :: AnalysisStands(s, c)) && (forall c :: AnswerStands(s, c))
    && LockStands(s) && (forall key :: SameResponse(s, key))
  }

  lemma CountSnoc(uids: seq<nat>, x: nat, uid: nat)
    ensures CountOf(uids + [x], uid) == CountOf(uids, uid) + (if x == uid then 1 else 0)
  {
    assert (uids + [x])[..|uids|] == uids;
  }

  // ---- the protocol underneath

  lemma StepPromises(s: Queries, step: QueryStep)
    requires Promises(s.protocol)
    ensures Promises(ApplyQuery(s, step).protocol)
  {
    hide Promises, BeginCompleteStep, RunCompleteStep, Q.PrepareAnswer, Q.PreparedRecord, Q.AfterFailure;
    match step
    case Common(t) => StepKeepsPromises(s.protocol, t);
    case CallComplete(c) =>
      var p := PhaseOf(s.protocol, c);
      if p.Holding? && c in s.work && s.work[c].Analysed? && c !in s.dead {
        StepKeepsPromises(s.protocol, BeginComplete(c, 200, s.work[c].answer));
      }
    case Finish(c) => StepKeepsPromises(s.protocol, RunComplete(c, Normal));
    case Die(c) =>
      StepKeepsPromises(s.protocol, RunComplete(c, Dies));
      StepKeepsPromises(if c in s.dead then s.protocol else RunCompleteStep(s.protocol, c, Dies), Crash);
    case _ =>
  }

  lemma {:induction false} ProtocolKeepsPromises(now: int, limit: nat, steps: seq<QueryStep>)
    ensures Promises(RunQueries(now, limit, steps).protocol)
  {
    if steps == [] {
      PromisesOfRun<Q.Answer>(now, []);
    } else {
      ProtocolKeepsPromises(now, limit, steps[..|steps| - 1]);
      StepPromises(RunQueries(now, limit, steps[..|steps| - 1]), steps[|steps| - 1]);
    }
  }

  // ---- what each step keeps

  lemma RecordsKept(s: Queries, step: QueryStep, uid: nat)
    requires QueryInv(s)
    ensures RecordKept(s, ApplyQuery(s, step), uid)
  {
    hide Apply, BeginCompleteStep, RunCompleteStep;
    assert RecordSound(s, uid);
  }

  /** Steps of the query service leave claims alone, so what was answered and stored stays so. */
  lemma KeptAnswers(s: Queries, after: Queries, d: nat)
    requires after.protocol == s.protocol && forall uid :: RecordKept(s, after, uid)
    requires AnswerStands(s, d) && Lookup(after.work, d) == Lookup(s.work, d)
    ensures AnswerStands(after, d)
  {
    var p := PhaseOf(s.protocol, d);
    if p.Holding? || p.Completing? { assert RecordKept(s, after, p.claim.operationUid); }
  }

  lemma PrepareRecords(s: Queries, c: nat, official: Option<string>, uid: nat)
    requires RecordSound(s, uid) && AuditedOnce(s, uid)
    ensures RecordSound(PrepareStep(s, c, official), uid)
    ensures AuditedOnce(PrepareStep(s, c, official), uid)
  {
    hide CountOf;
  }

  lemma PrepareOthers(s: Queries, c: nat, official: Option<string>, d: nat)
    requires d != c && AnalysisStands(s, d)
    ensures AnalysisStands(PrepareStep(s, c, official), d)
    ensures Lookup(PrepareStep(s, c, official).work, d) == Lookup(s.work, d)
  {
  }

  lemma PrepareOwn(s: Queries, c: nat, official: Option<string>)
    requires AnalysisStands(s, c) && AnswerStands(s, c) && LockStands(s)
    requires PhaseOf(s.protocol, c).Holding? ==> RecordSound(s, PhaseOf(s.protocol, c).claim.operationUid)
    ensures var after := PrepareStep(s, c, official);
            AnalysisStands(after, c) && AnswerStands(after, c) && LockStands(after)
  {
  }

  lemma PrepareKeepsQueries(s: Queries, c: nat, official: Option<string>)
    requires QueryInv(s)
    ensures QueryInv(PrepareStep(s, c, official))
  {
    var after := PrepareStep(s, c, official);
    forall uid ensures RecordKept(s, after, uid) { RecordsKept(s, Prepare(c, official), uid); }
    hide PrepareStep, RecordSound, AuditedOnce, AnalysisStands, AnswerStands, LockStands, SameResponse, RecordKept;
    PrepareOwn(s, c, official);
    forall uid ensures RecordSound(after, uid) && AuditedOnce(after, uid) {
      PrepareRecords(s, c, official, uid);
    }
    PrepareKeepsClaims(s, c, official);
    forall d ensures AnalysisStands(after, d) && AnswerStands(after, d) {
      if d != c {
        PrepareOthers(s, c, official, d);
        KeptAnswers(s, after, d);
      }
    }
    forall key ensures SameResponse(after, key) { KeptResponse(s, after, key); }
  }

  /** Taking the lock and reading the clock change no record and no claim. */
  lemma LockKeepsQueries(s: Queries, step: QueryStep)
    requires QueryInv(s) && (step.TakeLock? || step.ReadClock?)
    ensures QueryInv(ApplyQuery(s, step))
  {
    hide CountOf, Q.RecordCheck;
    var after := ApplyQuery(s, step);
    forall uid ensures RecordSound(after, uid) && AuditedOnce(after, uid) {
      assert RecordSound(s, uid) && AuditedOnce(s, uid);
    }
    forall d ensures AnalysisStands(after, d) && AnswerStands(after, d) {
      assert AnalysisStands(s, d) && AnswerStands(s, d);
    }
    forall key ensures SameResponse(after, key) { assert SameResponse(s, key); }
  }

  lemma KeptResponse(s: Queries, after: Queries, key: Key)
    requires after.protocol == s.protocol && forall uid :: RecordKept(s, after, uid)
    requires SameResponse(s, key)
    ensures SameResponse(after, key)
  {
    if Done(s.protocol, key) { assert RecordKept(s, after, s.protocol.table[key].operationUid); }
  }

  lemma PrepareKeepsClaims(s: Queries, c: nat, official: Option<string>)
    ensures PrepareStep(s, c, official).protocol == s.protocol
  {
  }

  lemma ConcludeRecords(s: Queries, c: nat, content: string, uid: nat)
    requires RecordSound(s, uid) && AuditedOnce(s, uid) && AnalysisStands(s, c)
    ensures RecordSound(ConcludeStep(s, c, content), uid)
    ensures AuditedOnce(ConcludeStep(s, c, content), uid)
  {
    var p := PhaseOf(s.protocol, c);
    if p.Holding? { CountSnoc(s.completions, p.claim.operationUid, uid); }
    hide CountOf;
  }

  lemma ConcludeOthers(s: Queries, c: nat, content: string, d: nat)
    requires d != c && AnalysisStands(s, d)
    ensures AnalysisStands(ConcludeStep(s, c, content), d)
    ensures Lookup(ConcludeStep(s, c, content).work, d) == Lookup(s.work, d)
    ensures ConcludeStep(s, c, content).protocol == s.protocol
  {
  }

  lemma ConcludeOwn(s: Queries, c: nat, content: string)
    requires AnalysisStands(s, c) && AnswerStands(s, c) && LockStands(s)
    ensures var after := ConcludeStep(s, c, content);
            AnalysisStands(after, c) && AnswerStands(after, c) && LockStands(after)
    ensures ConcludeStep(s, c, content).protocol == s.protocol
  {
  }

  lemma ConcludeKeepsQueries(s: Queries, c: nat, content: string)
    requires QueryInv(s)
    ensures QueryInv(ConcludeStep(s, c, content))
  {
    var after := ConcludeStep(s, c, content);
    forall uid ensures RecordKept(s, after, uid) { RecordsKept(s, Conclude(c, content), uid); }
    hide ConcludeStep, RecordSound, AuditedOnce, AnalysisStands, AnswerStands, LockStands, SameResponse, RecordKept;
    ConcludeOwn(s, c, content);
    forall uid ensures RecordSound(after, uid) && AuditedOnce(after, uid) { ConcludeRecords(s, c, content, uid); }
    forall d ensures AnalysisStands(after, d) && AnswerStands(after, d) {
      if d != c {
        ConcludeOthers(s, c, content, d);
        KeptAnswers(s, after, d);
      }
    }
    forall key ensures SameResponse(after, key) { KeptResponse(s, after, key); }
  }

  lemma FailRecords(s: Queries, c: nat, error: string, uid: nat)
    requires RecordSound(s, uid) && AuditedOnce(s, uid)
    ensures RecordSound(FailStep(s, c, error), uid) && AuditedOnce(FailStep(s, c, error), uid)
  {
    hide CountOf;
  }

  lemma FailOthers(s: Queries, c: nat, error: string, d: nat)
    requires d != c && AnalysisStands(s, d)
    ensures AnalysisStands(FailStep(s, c, error), d)
    ensures Lookup(FailStep(s, c, error).work, d) == Lookup(s.work, d)
  {
  }

  lemma FailOwn(s: Queries, c: nat, error: string)
    requires AnalysisStands(s, c) && AnswerStands(s, c) && LockStands(s)
    ensures var after := FailStep(s, c, error);
            AnalysisStands(after, c) && AnswerStands(after, c) && LockStands(after)
    ensures FailStep(s, c, error).protocol == s.protocol
  {
  }

  lemma FailKeepsQueries(s: Queries, c: nat, error: string)
    requires QueryInv(s)
    ensures QueryInv(FailStep(s, c, error))
  {
    var after := FailStep(s, c, error);
    forall uid ensures RecordKept(s, after, uid) { RecordsKept(s, Fail(c, error), uid); }
    hide FailStep, RecordSound, AuditedOnce, AnalysisStands, AnswerStands, LockStands, SameResponse, RecordKept;
    FailOwn(s, c, error);
    forall uid ensures RecordSound(after, uid) && AuditedOnce(after, uid) { FailRecords(s, c, error, uid); }
    forall d ensures AnalysisStands(after, d) && AnswerStands(after, d) {
      if d != c {
        FailOthers(s, c, error, d);
        KeptAnswers(s, after, d);
      }
    }
    forall key ensures SameResponse(after, key) { KeptResponse(s, after, key); }
  }

  // ---- the steps of the claim

  /** Only the claims changed, and perhaps some clients died. */
  predicate SameService(s: Queries, after: Queries) {
    && after.records == s.records && after.completions == s.completions && after.work == s.work
    && s.dead <= after.dead
    && (after.lock == s.lock || after.lock.None?)
  }

  lemma SameServiceRecords(s: Queries, after: Queries)
    requires QueryInv(s) && SameService(s, after)
    ensures forall uid :: RecordSound(after, uid) && AuditedOnce(after, uid)
  {
    hide CountOf;
    forall uid ensures RecordSound(after, uid) && AuditedOnce(after, uid) {
      assert RecordSound(s, uid) && AuditedOnce(s, uid);
    }
  }

  lemma CommonClients(s: Queries, t: Step<Q.Answer>, d: nat)
    requires Inv(s.protocol) && AnalysisStands(s, d) && AnswerStands(s, d)
    ensures AnalysisStands(ApplyQuery(s, Common(t)), d) && AnswerStands(ApplyQuery(s, Common(t)), d)
  {
    hide Inv, Apply;
    var after := ApplyQuery(s, Common(t));
    if after != s {
      if d in s.work {
        WorkersKeepWorking(s.protocol, t, d);
      } else if PhaseOf(after.protocol, d).Completing? {
        OthersKeepPhase(s.protocol, t, d);
      }
    }
  }

  lemma CommonKeepsQueries(s: Queries, t: Step<Q.Answer>)
    requires Inv(s.protocol) && QueryInv(s)
    ensures QueryInv(ApplyQuery(s, Common(t)))
  {
    var after := ApplyQuery(s, Common(t));
    SameServiceRecords(s, after);
    hide Inv, Apply, RecordSound, AuditedOnce, AnalysisStands, AnswerStands;
    forall d ensures AnalysisStands(after, d) && AnswerStands(after, d) { CommonClients(s, t, d); }
    forall key ensures SameResponse(after, key) {
      assert SameResponse(s, key);
      if after != s && Done(after.protocol, key) { DoneBefore(s.protocol, t, key); }
    }
  }

  lemma CallKeepsQueries(s: Queries, c: nat)
    requires QueryInv(s)
    ensures QueryInv(CallCompleteStep(s, c))
  {
    var after := CallCompleteStep(s, c);
    SameServiceRecords(s, after);
    hide RecordSound, AuditedOnce;
    forall d ensures AnalysisStands(after, d) && AnswerStands(after, d) {
      assert AnalysisStands(s, d) && AnswerStands(s, d);
    }
    forall key ensures SameResponse(after, key) { assert SameResponse(s, key); }
  }

  /** A completing transaction, committed or not, stores nothing but the record's response. */
  lemma CompletingClients(s: Queries, after: Queries, c: nat, ending: Ending, d: nat)
    requires Inv(s.protocol) && PhaseOf(s.protocol, c).Completing? && SameService(s, after)
    requires after.protocol.clients == RunCompleteStep(s.protocol, c, ending).clients
    requires AnalysisStands(s, d) && AnswerStands(s, d)
    requires after.lock == s.lock || d in after.dead || !(d in s.work && InAnalysis(s.work[d]))
    ensures AnalysisStands(after, d) && AnswerStands(after, d)
  {
    CompleteCases(s.protocol, c, ending);
    hide RunCompleteStep, Commits, Publishes, Inv;
  }

  lemma CompletingKey(s: Queries, after: Queries, c: nat, ending: Ending, key: Key)
    requires Inv(s.protocol) && PhaseOf(s.protocol, c).Completing? && SameService(s, after)
    requires after.protocol.table == RunCompleteStep(s.protocol, c, ending).table
    requires AnswerStands(s, c) && SameResponse(s, key)
    ensures SameResponse(after, key)
  {
    CompleteCases(s.protocol, c, ending);
    hide RunCompleteStep, Commits, Publishes, Inv;
  }

  lemma FinishKeepsQueries(s: Queries, c: nat)
    requires Inv(s.protocol) && QueryInv(s)
    ensures QueryInv(FinishStep(s, c))
  {
    hide Inv, RecordSound, AuditedOnce, AnalysisStands, AnswerStands, SameResponse, RunCompleteStep;
    var after := FinishStep(s, c);
    if c !in s.dead && PhaseOf(s.protocol, c).Completing? {
      SameServiceRecords(s, after);
      forall d ensures AnalysisStands(after, d) && AnswerStands(after, d) { CompletingClients(s, after, c, Normal, d); }
      forall key ensures SameResponse(after, key) { CompletingKey(s, after, c, Normal, key); }
    } else if c !in s.dead {
      NotCompleting(s.protocol, c, Normal);
    }
  }

  lemma DeadAnalysts(s: Queries, after: Queries, d: nat)
    requires AnalysisStands(s, d) && AnswerStands(s, d) && SameService(s, after) && s.protocol.clients.Keys <= after.dead
    requires after.protocol.clients == s.protocol.clients
    ensures AnalysisStands(after, d) && AnswerStands(after, d)
  {
  }

  lemma Analysts(s: Queries, d: nat)
    requires AnalysisStands(s, d) && d in s.work && InAnalysis(s.work[d]) && d !in s.dead
    ensures d in s.protocol.clients
  {
  }

  lemma DieKeepsQueries(s: Queries, c: nat)
    requires Inv(s.protocol) && QueryInv(s)
    ensures QueryInv(DieStep(s, c))
  {
    hide Inv, RecordSound, AuditedOnce, AnalysisStands, AnswerStands, SameResponse, RunCompleteStep;
    var after := DieStep(s, c);
    SameServiceRecords(s, after);
    if c !in s.dead && PhaseOf(s.protocol, c).Completing? {
      forall d ensures AnalysisStands(after, d) && AnswerStands(after, d) {
        if d in s.work && InAnalysis(s.work[d]) && d !in s.dead { Analysts(s, d); }
        CompletingClients(s, after, c, Dies, d);
      }
      forall key ensures SameResponse(after, key) { CompletingKey(s, after, c, Dies, key); }
    } else {
      if c !in s.dead { NotCompleting(s.protocol, c, Dies); }
      forall d ensures AnalysisStands(after, d) && AnswerStands(after, d) { DeadAnalysts(s, after, d); }
      forall key ensures SameResponse(after, key) { SameTable(s, after, key); }
    }
  }

  lemma SameTable(s: Queries, after: Queries, key: Key)
    requires SameResponse(s, key) && SameService(s, after) && after.protocol.table == s.protocol.table
    ensures SameResponse(after, key)
  {
  }

  // ---- runs

  lemma StepKeepsQueries(s: Queries, step: QueryStep)
    requires Inv(s.protocol) && QueryInv(s)
    ensures QueryInv(ApplyQuery(s, step))
  {
    hide Inv, QueryInv, Apply, PrepareStep, ConcludeStep, FailStep, CallCompleteStep, FinishStep, DieStep;
    match step
    case Common(t) => CommonKeepsQueries(s, t);
    case TakeLock(c) => LockKeepsQueries(s, step);
    case ReadClock(c) => LockKeepsQueries(s, step);
    case Prepare(c, official) => PrepareKeepsQueries(s, c, official);
    case Conclude(c, content) => ConcludeKeepsQueries(s, c, content);
    case Fail(c, error) => FailKeepsQueries(s, c, error);
    case CallComplete(c) => CallKeepsQueries(s, c);
    case Finish(c) => FinishKeepsQueries(s, c);
    case Die(c) => DieKeepsQueries(s, c);
  }

  /**
   * In every run with retries, failures and crashes: a completed claim holds the response of its
   * query record, each completed query was audited exactly once, and every response is drawn from
   * the source its record was pinned to.
   */
  lemma {:induction false} QueriesOfRun(now: int, limit: nat, steps: seq<QueryStep>)
    ensures QueryInv(RunQueries(now, limit, steps))
  {
    if steps != [] {
      hide QueryInv, ApplyQuery, Inv, Timely, AllAnswered, PublishedOnce;
      ProtocolKeepsPromises(now, limit, steps[..|steps| - 1]);
      QueriesOfRun(now, limit, steps[..|steps| - 1]);
      StepKeepsQueries(RunQueries(now, limit, steps[..|steps| - 1]), steps[|steps| - 1]);
    }
  }

  /** Whatever happens later, a record keeps its source, and a completed one its response. */
  lemma {:induction false} RecordForever(now: int, limit: nat, steps: seq<QueryStep>, n: nat, uid: nat)
    requires n <= |steps|
    ensures RecordKept(RunQueries(now, limit, steps[..n]), RunQueries(now, limit, steps), uid)
  {
    if n == |steps| {
      assert steps[..n] == steps;
    } else {
      hide ApplyQuery, QueryInv;
      var before := steps[..|steps| - 1];
      assert before[..n] == steps[..n];
      RecordForever(now, limit, before, n, uid);
      QueriesOfRun(now, limit, before);
      RecordsKept(RunQueries(now, limit, before), steps[|steps| - 1], uid);
    }
  }

  /** Two answered callers of one key got one response, the record's own. */
  lemma CallersGetTheRecord(now: int, limit: nat, steps: seq<QueryStep>, c: nat)
    requires var s := RunQueries(now, limit, steps);
             var p := PhaseOf(s.protocol, c); p.Settled? && p.answer.Some?
    ensures var s := RunQueries(now, limit, steps); var p := PhaseOf(s.protocol, c);
            && p.key in s.protocol.table
            && IsCompleted(s, s.protocol.table[p.key].operationUid)
            && s.records[s.protocol.table[p.key].operationUid].response == p.answer
            && p.answer.value.source == s.records[s.protocol.table[p.key].operationUid].source
  {
    var s := RunQueries(now, limit, steps);
    ProtocolKeepsPromises(now, limit, steps);
    QueriesOfRun(now, limit, steps);
    hide RunQueries, Inv, Timely, PublishedOnce, AnalysisStands, AnswerStands, AuditedOnce;
    assert Answered(s.protocol, s.protocol.clients[c]);
    assert SameResponse(s, s.protocol.clients[c].key);
    assert RecordSound(s, s.protocol.table[s.protocol.clients[c].key].operationUid);
  }
}
