/** The analysis query route as one request runs it: claim, analyse under the claim's identifier, complete. */
module QueryRoute {
  import opened Wrappers
  import opened Domain
  import opened Idempotency
  import opened LeaseProtocol
  import opened LeaseOutcomes
  import Q = QueryRecords
  import QS = QueryService
  import W = WriteService

  const OPERATION := "ANALYSIS_QUERY"

  /** A completed claim holds the response of the query record of its operation. */
  predicate HoldsRecord(row: Row<Q.Answer>, records: map<nat, Q.Record>) {
    row.state == Completed ==>
      QS.IsCompleted(records, row.operationUid) && row.response == records[row.operationUid].response
  }

  /** Another attempt at the same query may take the claim over. */
  predicate LeaseEnded(row: Row<Q.Answer>, subject: string, now: int) {
    && row.request == subject && row.state == InProgress
    && (row.leaseExpires.None? || row.leaseExpires.value <= now)
  }

  /** An answer given for the first time is audited once, and nothing else is. */
  ghost predicate AuditPromise(
    answer: Option<Q.Answer>, before: seq<W.AuditRow<Q.Answer>>, after: seq<W.AuditRow<Q.Answer>>, now: int)
  {
    if answer.Some? then W.AuditsCompletion(before, after, "API_ANALYSIS_QUERY_COMPLETED", answer.value, now)
    else after == before
  }

  class QueryRoute {
    const writes: W.WriteService<Q.Answer>
    const queries: QS.QueryService

    ghost predicate Valid()
      reads this, writes, queries
    {
      && writes.Valid() && queries.Valid() && !queries.running
      && forall key <- writes.table :: HoldsRecord(writes.table[key], queries.records)
    }

    constructor (limit: nat, now: int)
      requires limit > 0
      ensures Valid() && fresh(writes) && fresh(queries) && writes.start == now && writes.trace == []
    {
      writes := new W.WriteService<Q.Answer>(now);
      queries := new QS.QueryService(limit, now);
    }

    /**
     * One request at time `now`. `official` is the current committed analysis of the subject and
     * `work` what evaluating the pinned source gives; what the route raises on is answered with
     * nothing. A completed query is answered again from the claim, which holds the record's response.
     */
    method AnalysisQuery(
      ghost c: nat, owner: string, subject: string, idempotencyKey: string, official: Option<string>,
      work: QS.Outcome, now: int)
      returns (answer: Option<Q.Answer>)
      requires Valid() && PhaseOf(writes.Protocol(), c).Idle? && writes.Protocol().now == now && queries.now <= now
      modifies writes, queries
      ensures Valid()
      ensures var key := Key(owner, OPERATION, idempotencyKey); Lookup(writes.active, key) == Lookup(old(writes.active), key)
      ensures answer.Some? ==>
                var key := Key(owner, OPERATION, idempotencyKey);
                && key in writes.table && writes.table[key].state == Completed && writes.table[key].request == subject
                && writes.table[key].response == answer
                && queries.records[writes.table[key].operationUid].response == answer
      ensures forall uid <- old(queries.records) ::
                && uid in queries.records && queries.records[uid].source == old(queries.records)[uid].source
                && (old(queries.records)[uid].status == Q.Completed ==> queries.records[uid] == old(queries.records)[uid])
      ensures var key := Key(owner, OPERATION, idempotencyKey);
              key in old(writes.table) && old(writes.table)[key].state == Completed && key !in old(writes.active)
              && old(writes.table)[key].request == subject ==>
                && answer == old(writes.table)[key].response && queries.records == old(queries.records)
                && writes.audits == old(writes.audits)
      ensures var key := Key(owner, OPERATION, idempotencyKey);
              key !in old(writes.active) && key !in old(writes.table) ==>
                && QS.AnswerPromise(old(writes.nextUid), owner, subject, official,
                                    QS.MayCreate(old(queries.records), owner, now, queries.limit), work,
                                    old(queries.records), answer)
                && AuditPromise(answer, old(writes.audits), writes.audits, now)
                && key in writes.table && writes.table[key].operationUid == old(writes.nextUid)
                && (answer.None? ==> writes.table[key].state == InProgress)
      ensures var key := Key(owner, OPERATION, idempotencyKey);
              key !in old(writes.active) && key in old(writes.table)
              && LeaseEnded(old(writes.table)[key], subject, now) ==>
                && QS.AnswerPromise(old(writes.table)[key].operationUid, owner, subject, official,
                                    QS.MayCreate(old(queries.records), owner, now, queries.limit), work,
                                    old(queries.records), answer)
                && AuditPromise(answer, old(writes.audits), writes.audits, now)
                && (answer.None? ==> key in writes.table && writes.table[key].state == InProgress)
      ensures var key := Key(owner, OPERATION, idempotencyKey);
              key in old(writes.active)
              || (key in old(writes.table) && old(writes.table)[key].request != subject)
              || (key in old(writes.table) && old(writes.table)[key].state == InProgress
                  && !LeaseEnded(old(writes.table)[key], subject, now)) ==>
                && answer == None && queries.records == old(queries.records) && writes.table == old(writes.table)
                && writes.audits == old(writes.audits)
    {
      hide RowCheck, Run, ClaimAnswer, ClaimedRow, QS.Limited, QS.CompletedAudits, QS.CreatedBy, Q.RecordCheck,
           QS.AnswerPromise, QS.MayCreate, AuditPromise;
      var key := Key(owner, OPERATION, idempotencyKey);
      RowsAreChecked();
      ClaimFacts(key, Lookup(writes.table, key), subject, writes.nextUid, writes.nextUid + 1, now);
      var claimed := writes.MakeClaim(c, key, subject, now);
      if claimed.Err? {
        return None;
      }
      var claim := claimed.value;
      if claim.response.Some? {
        return claim.response;
      }
      answer := RunClaimed(c, claim, official, work, now);
    }

    /** The work under a granted claim: analyse, and complete the claim or give it back. */
    method RunClaimed(ghost c: nat, claim: Claim<Q.Answer>, official: Option<string>, work: QS.Outcome, now: int)
      returns (answer: Option<Q.Answer>)
      requires Valid() && PhaseOf(writes.Protocol(), c) == Holding(claim) && writes.Protocol().now == now
      requires queries.now <= now && claim.leaseUid.Some? && claim.key in writes.table
      requires writes.table[claim.key].operationUid == claim.operationUid && writes.table[claim.key].state == InProgress
      modifies writes, queries
      ensures Valid()
      ensures writes.active
              == if Lookup(old(writes.active), claim.key) == claim.leaseUid then old(writes.active) - {claim.key}
                 else old(writes.active)
      ensures claim.key in writes.table && writes.table[claim.key].request == old(writes.table)[claim.key].request
      ensures writes.table[claim.key].operationUid == claim.operationUid
      ensures answer.None? ==> writes.table == old(writes.table)
      ensures answer.Some? ==>
                && writes.table[claim.key].state == Completed && writes.table[claim.key].response == answer
                && claim.operationUid in queries.records && queries.records[claim.operationUid].response == answer
      ensures QS.Preserves(old(queries.records), queries.records, claim.operationUid)
      ensures old(writes.table)[claim.key].leaseUid == claim.leaseUid ==>
                && QS.AnswerPromise(claim.operationUid, claim.key.owner, claim.request, official,
                                 QS.MayCreate(old(queries.records), claim.key.owner, now, queries.limit), work,
                                 old(queries.records), answer)
                && AuditPromise(answer, old(writes.audits), writes.audits, now)
    {
      hide Run, RowCheck, QS.Limited, QS.CompletedAudits, QS.CreatedBy, Q.RecordCheck, QS.AnswerPromise, QS.StoredPromise,
           QS.MayCreate;
      var result := queries.Analyze(claim.operationUid, claim.key.owner, claim.request, official, work, now, now, now);
      if result.None? {
        writes.GiveUp(c);
        writes.ReleaseActive(c, claim.key, LeaseOf(claim));
        return None;
      }
      var published: bool;
      answer, published := writes.CompleteClaim(c, claim, 200, result.value, "API_ANALYSIS_QUERY_COMPLETED", false, now);
    }

    lemma RowsAreChecked()
      requires writes.Valid()
      ensures forall key <- writes.table :: RowCheck(writes.table[key])
    {
      InvOfRun(writes.start, writes.trace);
    }
  }
}
