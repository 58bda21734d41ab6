/** The sliding limit over every run of the query route, whoever waits, fails or dies. */
module QueryLimit {
  import opened Wrappers
  import opened Domain
  import opened Idempotency
  import opened LeaseProtocol
  import opened QueryProtocol
  import Q = QueryRecords
  import QS = QueryService

  predicate IsReading(s: Queries, c: nat) {
    c in s.work && s.work[c].Checking? && s.lock == Some(c) && c !in s.dead
  }

  /** The client that checks the rate read the clock after every record was created. */
  ghost predicate ReadingStands(s: Queries, c: nat) {
    IsReading(s, c) ==> s.work[c].readAt <= s.protocol.now && QS.NoneLater(s.records, s.work[c].readAt)
  }

  ghost predicate RateInv(s: Queries) {
    && QS.Limited(s.records, s.limit) && QS.NoneLater(s.records, s.protocol.now)
    && forall c :: ReadingStands(s, c)
  }

  /** Records are created by preparing only; every other step changes at most what became of one. */
  predicate KeepsCreation(before: map<nat, Q.Record>, after: map<nat, Q.Record>) {
    || after == before
    || exists uid <- before ::
         && uid in after && after == before[uid := after[uid]]
         && after[uid].owner == before[uid].owner && after[uid].createdAt == before[uid].createdAt
  }

  lemma CreationKeepsLimit(before: map<nat, Q.Record>, after: map<nat, Q.Record>, limit: nat, at: int)
    requires KeepsCreation(before, after) && QS.Limited(before, limit) && QS.NoneLater(before, at)
    ensures QS.Limited(after, limit) && QS.NoneLater(after, at)
  {
    hide QS.Limited;
    if after != before {
      var uid :| uid in before && uid in after && after == before[uid := after[uid]]
                 && after[uid].owner == before[uid].owner && after[uid].createdAt == before[uid].createdAt;
      QS.UpdateKeepsLimit(before, limit, uid, after[uid]);
    }
  }

  lemma CommonIsForward(s: State<Q.Answer>, t: Step<Q.Answer>)
    ensures s.now <= Apply(s, t).now
  {
  }

  lemma FinishIsForward(s: State<Q.Answer>, c: nat, ending: Ending)
    ensures s.now == RunCompleteStep(s, c, ending).now
  {
  }

  lemma OthersKeepCreation(s: Queries, step: QueryStep)
    requires !step.Prepare?
    ensures KeepsCreation(s.records, ApplyQuery(s, step).records) && ApplyQuery(s, step).limit == s.limit
    ensures s.protocol.now <= ApplyQuery(s, step).protocol.now
  {
    hide Apply, RunCompleteStep, KeepsCreation;
    match step
    case Common(t) => CommonIsForward(s.protocol, t); SameCreation(s.records);
    case Conclude(c, content) => ConcludeKeepsCreation(s, c, content);
    case Fail(c, error) => FailKeepsCreation(s, c, error);
    case Finish(c) => FinishIsForward(s.protocol, c, Normal); SameCreation(s.records);
    case Die(c) =>
      FinishIsForward(s.protocol, c, Dies);
      CommonIsForward(if c in s.dead then s.protocol else RunCompleteStep(s.protocol, c, Dies), Crash);
      SameCreation(s.records);
    case _ => SameCreation(s.records);
  }

  lemma SameCreation(records: map<nat, Q.Record>)
    ensures KeepsCreation(records, records)
  {
  }

  lemma ConcludeKeepsCreation(s: Queries, c: nat, content: string)
    ensures KeepsCreation(s.records, ConcludeStep(s, c, content).records)
  {
    var p, after := PhaseOf(s.protocol, c), ConcludeStep(s, c, content).records;
    if after != s.records {
      var uid := p.claim.operationUid;
      assert uid in s.records && after == s.records[uid := after[uid]];
    }
  }

  lemma FailKeepsCreation(s: Queries, c: nat, error: string)
    ensures KeepsCreation(s.records, FailStep(s, c, error).records)
  {
    var p, after := PhaseOf(s.protocol, c), FailStep(s, c, error).records;
    if after != s.records {
      var uid := p.claim.operationUid;
      assert uid in s.records && after == s.records[uid := after[uid]];
    }
  }

  lemma PrepareKeepsLimit(s: Queries, c: nat, official: Option<string>)
    requires RateInv(s)
    ensures var after := PrepareStep(s, c, official);
            QS.Limited(after.records, after.limit) && QS.NoneLater(after.records, after.protocol.now)
  {
    assert ReadingStands(s, c);
    var after, p := PrepareStep(s, c, official), PhaseOf(s.protocol, c);
    if after.records != s.records {
      var uid := p.claim.operationUid;
      var r := after.records[uid];
      if uid in s.records {
        QS.UpdateKeepsLimit(s.records, s.limit, uid, r);
      } else {
        forall owner, from ensures |QS.CreatedWithin(after.records, owner, from)| <= s.limit {
          QS.AdmissionKeepsLimit(s.records, s.limit, uid, r, s.work[c].readAt, owner, from);
        }
      }
    }
  }

  /** Whoever reads has the lock, so no other client creates a record between its reading and its own. */
  lemma ReadingsKept(s: Queries, step: QueryStep, c: nat)
    requires RateInv(s)
    ensures ReadingStands(ApplyQuery(s, step), c)
  {
    assert ReadingStands(s, c);
    var after := ApplyQuery(s, step);
    if IsReading(after, c) && !step.TakeLock? && !step.ReadClock? {
      RecordsWhileReading(s, step, c);
      if !step.Prepare? { OthersKeepCreation(s, step); }
    }
  }

  lemma RecordsWhileReading(s: Queries, step: QueryStep, c: nat)
    requires IsReading(ApplyQuery(s, step), c) && !step.TakeLock? && !step.ReadClock?
    ensures IsReading(s, c) && ApplyQuery(s, step).work[c] == s.work[c] && ApplyQuery(s, step).records == s.records
    ensures step.Prepare? ==> ApplyQuery(s, step).protocol == s.protocol
  {
    hide Apply, RunCompleteStep;
  }

  lemma StepKeepsRate(s: Queries, step: QueryStep)
    requires RateInv(s)
    ensures RateInv(ApplyQuery(s, step)) && ApplyQuery(s, step).limit == s.limit
  {
    var after := ApplyQuery(s, step);
    forall c ensures ReadingStands(after, c) { ReadingsKept(s, step, c); }
    if step.Prepare? {
      PrepareKeepsLimit(s, step.client, step.official);
    } else {
      OthersKeepCreation(s, step);
      CreationKeepsLimit(s.records, after.records, s.limit, s.protocol.now);
      hide ApplyQuery;
    }
  }

  lemma {:induction false} RateOfRun(now: int, limit: nat, steps: seq<QueryStep>)
    ensures RateInv(RunQueries(now, limit, steps)) && RunQueries(now, limit, steps).limit == limit
  {
    if steps == [] {
      assert forall owner, from :: QS.CreatedWithin(map[], owner, from) == {};
    } else {
      hide RateInv, ApplyQuery;
      RateOfRun(now, limit, steps[..|steps| - 1]);
      StepKeepsRate(RunQueries(now, limit, steps[..|steps| - 1]), steps[|steps| - 1]);
    }
  }

  /** In every run, no owner has more queries created within a minute, both ends included, than the limit. */
  lemma LimitOfRun(now: int, limit: nat, steps: seq<QueryStep>, owner: string, from: int)
    ensures |QS.CreatedWithin(RunQueries(now, limit, steps).records, owner, from)| <= limit
  {
    RateOfRun(now, limit, steps);
  }
}
