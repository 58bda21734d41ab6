/** The query service: one analysis at a time, a record per query, and a sliding limit per owner. */
module QueryService {
  import opened Wrappers
  import opened Domain
  import opened QueryRecords

  /** The records of an owner created at or after a time. */
  function CreatedSince(records: map<nat, Record>, owner: string, since: int): set<nat> {
    set uid | uid in records && records[uid].owner == owner && records[uid].createdAt >= since
  }

  /** The records of an owner created within a minute, both ends included. */
  function CreatedWithin(records: map<nat, Record>, owner: string, from: int): set<nat> {
    set uid | uid in records && records[uid].owner == owner && from <= records[uid].createdAt <= from + MINUTE
  }

  ghost predicate Limited(records: map<nat, Record>, limit: nat) {
    forall owner, from :: |CreatedWithin(records, owner, from)| <= limit
  }

  ghost predicate NoneLater(records: map<nat, Record>, at: int) {
    forall uid <- records :: records[uid].createdAt <= at
  }

  ghost predicate CreatedBy(records: map<nat, Record>, now: int) {
    forall uid <- records :: records[uid].createdAt <= now && records[uid].updatedAt <= now
  }

  lemma SubsetSize(a: set<nat>, b: set<nat>)
    requires a <= b
    ensures |a| <= |b|
  {
    assert b == a + (b - a);
    assert |b| == |a| + |b - a|;
  }

  /** A record admitted by the check of the last minute keeps every minute within the limit. */
  lemma AdmissionKeepsLimit(
    records: map<nat, Record>, limit: nat, uid: nat, r: Record, checkedAt: int, owner: string, from: int)
    requires Limited(records, limit) && NoneLater(records, checkedAt) && checkedAt <= r.createdAt
    requires uid !in records && |CreatedSince(records, r.owner, checkedAt - MINUTE)| < limit
    ensures |CreatedWithin(records[uid := r], owner, from)| <= limit
  {
    var before, after := CreatedWithin(records, owner, from), CreatedWithin(records[uid := r], owner, from);
    if owner == r.owner && from <= r.createdAt <= from + MINUTE {
      var recent := CreatedSince(records, owner, checkedAt - MINUTE);
      assert before <= recent by { assert from >= checkedAt - MINUTE; }
      SubsetSize(before, recent);
      assert after == before + {uid};
    } else {
      assert after == before;
    }
  }

  /** Changing a record without changing its owner or creation leaves the counts alone. */
  lemma UpdateKeepsLimit(records: map<nat, Record>, limit: nat, uid: nat, r: Record)
    requires Limited(records, limit) && uid in records
    requires r.owner == records[uid].owner && r.createdAt == records[uid].createdAt
    ensures Limited(records[uid := r], limit)
  {
    var after := records[uid := r];
    forall owner, from ensures |CreatedWithin(after, owner, from)| <= limit {
      assert CreatedWithin(after, owner, from) == CreatedWithin(records, owner, from);
    }
  }

  datatype QueryAudit = QueryCompleted(uid: nat) | QueryFailed(uid: nat, error: string)

  function CompletedAudits(audits: seq<QueryAudit>, uid: nat): nat {
    if audits == [] then 0
    else CompletedAudits(audits[..|audits| - 1], uid) + (if audits[|audits| - 1] == QueryCompleted(uid) then 1 else 0)
  }

  lemma CompletedAuditsSnoc(audits: seq<QueryAudit>, a: QueryAudit, uid: nat)
    ensures CompletedAudits(audits + [a], uid) == CompletedAudits(audits, uid) + (if a == QueryCompleted(uid) then 1 else 0)
  {
    assert (audits + [a])[..|audits|] == audits;
  }

  predicate IsCompleted(records: map<nat, Record>, uid: nat) { uid in records && records[uid].status == Completed }

  /** Other queries, completed ones, and every source are as before. */
  ghost predicate Preserves(before: map<nat, Record>, after: map<nat, Record>, uid: nat) {
    forall u <- before :: u in after && after[u].source == before[u].source
      && (u != uid || before[u].status == Completed ==> after[u] == before[u])
  }

  lemma PreservesTwice(a: map<nat, Record>, b: map<nat, Record>, c: map<nat, Record>, uid: nat)
    requires Preserves(a, b, uid) && Preserves(b, c, uid)
    ensures Preserves(a, c, uid)
  {
  }

  /** What the work of a query, done between its commands, may end with. */
  datatype Outcome = Evaluated(content: string) | Raised(error: string)

  /** A failure is audited once, however often it comes. */
  predicate FailureAudited(before: seq<QueryAudit>, after: seq<QueryAudit>, uid: nat, error: string) {
    after == if QueryFailed(uid, error) in before then before else before + [QueryFailed(uid, error)]
  }

  /**
   * What working on a query's source comes to: the evaluation is answered, stored and audited once, or
   * the record is failed with the error.
   */
  ghost predicate WorkPromise(
    uid: nat, subject: string, source: string, work: Outcome, result: Option<Answer>,
    records: map<nat, Record>, before: seq<QueryAudit>, audits: seq<QueryAudit>)
  {
    && uid in records
    && (work.Evaluated? ==>
          && result == Some(Answer(uid, subject, source, work.content))
          && records[uid].status == Completed && records[uid].response == result
          && audits == before + [QueryCompleted(uid)])
    && (work.Raised? ==>
          && result == None && records[uid].status == Failed && records[uid].error == Some(work.error)
          && FailureAudited(before, audits, uid, work.error))
  }

  /** The owner may create a record: fewer than the limit in the minute before the clock was read. */
  predicate MayCreate(records: map<nat, Record>, owner: string, checkedAt: int, limit: nat) {
    |set uid | uid in records && records[uid].owner == owner && records[uid].createdAt >= checkedAt - 60_000_000| < limit
  }

  /** What an analysis that nothing else runs beside answers. */
  ghost predicate AnswerPromise(
    uid: nat, owner: string, subject: string, official: Option<string>, may: bool, work: Outcome,
    before: map<nat, Record>, result: Option<Answer>)
  {
    if uid in before && before[uid].owner == owner && before[uid].subject == subject then
      result == if before[uid].status == Completed then before[uid].response
                else if work.Evaluated? then Some(Answer(uid, subject, before[uid].source, work.content)) else None
    else
      result == if uid !in before && may && official.Some? && work.Evaluated? then
                  Some(Answer(uid, subject, official.value, work.content))
                else None
  }

  lemma MayCreateExactly(records: map<nat, Record>, owner: string, checkedAt: int, limit: nat)
    ensures MayCreate(records, owner, checkedAt, limit)
            <==> |CreatedSince(records, owner, checkedAt - MINUTE)| < limit
  {
    assert CreatedSince(records, owner, checkedAt - MINUTE)
           == set uid | uid in records && records[uid].owner == owner && records[uid].createdAt >= checkedAt - 60_000_000;
  }

  /** What preparing a query answers and leaves. */
  ghost predicate PreparePromise(
    uid: nat, owner: string, subject: string, official: Option<string>, may: bool, at: int,
    before: map<nat, Record>, answer: Preparation, after: map<nat, Record>)
  {
    if uid in before then
      if !BelongsTo(before[uid], owner, subject) then answer == Rejected(AnotherRequest) && after == before
      else if before[uid].status == Completed then
        answer.Replayed? && Some(answer.answer) == before[uid].response && after == before
      else
        && answer == Working(before[uid].source) && uid in after
        && BelongsTo(after[uid], owner, subject) && after[uid].source == before[uid].source
        && after[uid].status == Running
    else if !may then answer == Rejected(RateLimited) && after == before
    else if official.None? then answer == Rejected(NoOfficialAnalysis) && after == before
    else
      && answer == Working(official.value)
      && after == before[uid := Record(owner, subject, official.value, Running, false, None, None, at, at, None)]
  }

  /** What the whole analysis leaves of its record and the audit. */
  ghost predicate StoredPromise(
    uid: nat, owner: string, subject: string, official: Option<string>, may: bool, at: int, work: Outcome,
    before: map<nat, Record>, result: Option<Answer>, after: map<nat, Record>, audited: seq<QueryAudit>,
    audits: seq<QueryAudit>)
  {
    if uid in before && BelongsTo(before[uid], owner, subject) then
      before[uid].status != Completed ==>
        WorkPromise(uid, subject, before[uid].source, work, result, after, audited, audits)
    else if uid !in before && may && official.Some? then
      && WorkPromise(uid, subject, official.value, work, result, after, audited, audits)
      && BelongsTo(after[uid], owner, subject) && after[uid].source == official.value && after[uid].createdAt == at
    else after == before && (if uid in before then audits == audited else FailureAudited(audited, audits, uid, "rejected"))
  }

  lemma AnalysisFollows(
    uid: nat, owner: string, subject: string, official: Option<string>, may: bool, at: int, work: Outcome,
    before: map<nat, Record>, preparation: Preparation, prepared: map<nat, Record>, result: Option<Answer>,
    after: map<nat, Record>, audited: seq<QueryAudit>, audits: seq<QueryAudit>)
    requires PreparePromise(uid, owner, subject, official, may, at, before, preparation, prepared)
    requires preparation.Working? ==>
               && WorkPromise(uid, subject, preparation.source, work, result, after, audited, audits)
               && uid in prepared && BelongsTo(after[uid], owner, subject) && after[uid].source == preparation.source
               && after[uid].createdAt == prepared[uid].createdAt
    requires preparation.Replayed? ==> result == Some(preparation.answer)
    requires preparation.Rejected? ==> result == None
    requires preparation.Rejected? ==>
               if uid in prepared then BelongsTo(prepared[uid], owner, subject) || audits == audited
               else FailureAudited(audited, audits, uid, "rejected")
    requires preparation.Rejected? && (uid in prepared ==> !BelongsTo(prepared[uid], owner, subject)) ==> after == prepared
    ensures AnswerPromise(uid, owner, subject, official, may, work, before, result)
    ensures StoredPromise(uid, owner, subject, official, may, at, work, before, result, after, audited, audits)
  {
  }

  class QueryService {
    const limit: nat
    var running: bool
    var records: map<nat, Record>
    var audits: seq<QueryAudit>
    /** The latest clock reading. */
    ghost var now: int

    /**
     * Every record is one the table allows, every minute is within the limit, and each completed
     * query, and no other, has exactly one completion in the audit.
     */
    ghost predicate Valid()
      reads this
    {
      && (forall uid <- records :: RecordCheck(records[uid]))
      && Limited(records, limit) && CreatedBy(records, now)
      && forall uid :: CompletedAudits(audits, uid) == if IsCompleted(records, uid) then 1 else 0
    }

    constructor (limit: nat, start: int)
      requires limit > 0
      ensures Valid() && !running && now == start && records == map[] && audits == [] && this.limit == limit
    {
      this.limit := limit;
      running, records, audits := false, map[], [];
      now := start;
      new;
      assert forall owner, from :: CreatedWithin(map[], owner, from) == {};
    }

    /** Stores a changed record of an existing query. */
    method UpdateRecord(uid: nat, r: Record, at: int)
      requires Valid() && uid in records && now <= at && r.updatedAt == at
      requires LegalRecordUpdate(records[uid], r) && RecordCheck(r)
      requires r.status != Completed
      modifies this`records, this`now
      ensures Valid() && now == at && records == old(records)[uid := r]
    {
      UpdateKeepsLimit(records, limit, uid, r);
      records := records[uid := r];
      now := at;
    }

    method InsertRecord(uid: nat, r: Record, ghost checkedAt: int, at: int)
      requires Valid() && uid !in records && now <= checkedAt <= at
      requires RecordCheck(r) && r.status == Running && r.createdAt == at && r.updatedAt == at
      requires |CreatedSince(records, r.owner, checkedAt - MINUTE)| < limit
      modifies this`records, this`now
      ensures Valid() && now == at && records == old(records)[uid := r]
    {
      var after := records[uid := r];
      forall owner, from ensures |CreatedWithin(after, owner, from)| <= limit {
        AdmissionKeepsLimit(records, limit, uid, r, checkedAt, owner, from);
      }
      records := after;
      now := at;
    }

    /** Finds the record, restarts a failed one, or admits and inserts a new one. */
    method Prepare(uid: nat, owner: string, subject: string, official: Option<string>, checkedAt: int, at: int)
      returns (answer: Preparation)
      requires Valid() && now <= checkedAt <= at
      modifies this`records, this`now
      ensures Valid() && now == at
      ensures var found, within := Lookup(old(records), uid), |CreatedSince(old(records), owner, checkedAt - MINUTE)| < limit;
              var row := PreparedRecord(found, owner, subject, within, official, at);
              && answer == PrepareAnswer(found, owner, subject, within, official)
              && records == if row.Some? then old(records)[uid := row.value] else old(records)
      ensures answer.Working? ==>
                && uid in records && records[uid].status == Running && records[uid].source == answer.source
                && BelongsTo(records[uid], owner, subject)
      ensures answer.Replayed? <==> IsCompleted(old(records), uid) && BelongsTo(old(records)[uid], owner, subject)
      ensures answer.Replayed? ==> records == old(records) && Some(answer.answer) == records[uid].response
      ensures PreparePromise(uid, owner, subject, official, MayCreate(old(records), owner, checkedAt, limit), at,
                             old(records), answer, records)
      ensures Preserves(old(records), records, uid)
    {
      MayCreateExactly(records, owner, checkedAt, limit);
      hide Limited, CompletedAudits, MayCreate;
      if uid in records {
        var found := records[uid];
        assert records[uid := found] == records;
        if !BelongsTo(found, owner, subject) {
          now := at;
          return Rejected(AnotherRequest);
        }
        if found.status == Completed {
          now := at;
          return Replayed(found.response.value);
        }
        if found.status == Failed {
          UpdatesAreLegal(found, Answer(0, "", "", ""), "", at);
          UpdateRecord(uid, Restarted(found, at), at);
        }
        now := at;
        return Working(found.source);
      }
      var within := |CreatedSince(records, owner, checkedAt - MINUTE)| < limit;
      if !within {
        now := at;
        return Rejected(RateLimited);
      }
      if official.None? {
        now := at;
        return Rejected(NoOfficialAnalysis);
      }
      InsertRecord(uid, NewRecord(owner, subject, official.value, at), checkedAt, at);
      return Working(official.value);
    }

    /** Completes a running query and audits it, or answers from the stored record. */
    method Complete(uid: nat, answer: Answer, at: int) returns (stored: Option<Answer>)
      requires Valid() && uid in records && now <= at
      modifies this`records, this`audits, this`now
      ensures Valid() && now == at
      ensures IsCompleted(old(records), uid) ==>
                stored == old(records)[uid].response && records == old(records) && audits == old(audits)
      ensures old(records)[uid].status == Failed ==> stored == None && records == old(records) && audits == old(audits)
      ensures old(records)[uid].status == Running ==>
                && stored == Some(answer) && records == old(records)[uid := Finished(old(records)[uid], answer, at)]
                && audits == old(audits) + [QueryCompleted(uid)]
      ensures Preserves(old(records), records, uid)
    {
      hide Limited;
      var found := records[uid];
      now := at;
      if found.status == Completed {
        return found.response;
      }
      if found.status != Running {
        return None;
      }
      UpdatesAreLegal(found, answer, "", at);
      UpdateKeepsLimit(records, limit, uid, Finished(found, answer, at));
      forall u ensures CompletedAudits(audits + [QueryCompleted(uid)], u)
                       == CompletedAudits(audits, u) + (if u == uid then 1 else 0) {
        CompletedAuditsSnoc(audits, QueryCompleted(uid), u);
      }
      records := records[uid := Finished(found, answer, at)];
      audits := audits + [QueryCompleted(uid)];
      return Some(answer);
    }

    /** Marks a running query failed; a completed one stays as it is. */
    method Fail(uid: nat, owner: string, subject: string, error: string, at: int)
      requires Valid() && now <= at
      modifies this`records, this`audits, this`now
      ensures Valid() && now == at
      ensures var row := AfterFailure(Lookup(old(records), uid), owner, subject, error, at);
              records == if row.Some? then old(records)[uid := row.value] else old(records)
      ensures uid in old(records) && (!BelongsTo(old(records)[uid], owner, subject) || old(records)[uid].status != Running)
              ==> records == old(records) && audits == old(audits)
      ensures uid in old(records) && BelongsTo(old(records)[uid], owner, subject) && old(records)[uid].status == Running
              ==> uid in records && records[uid].status == Failed && records[uid].error == Some(error)
                  && FailureAudited(old(audits), audits, uid, error)
      ensures uid !in old(records) ==> records == old(records) && FailureAudited(old(audits), audits, uid, error)
      ensures forall u :: CompletedAudits(audits, u) == CompletedAudits(old(audits), u)
      ensures Preserves(old(records), records, uid)
    {
      hide Limited;
      now := at;
      if uid in records {
        var found := records[uid];
        assert records[uid := found] == records;
        if !BelongsTo(found, owner, subject) || found.status != Running {
          return;
        }
        UpdatesAreLegal(found, Answer(0, "", "", ""), error, at);
        UpdateRecord(uid, FailedRecord(found, error, at), at);
      }
      if QueryFailed(uid, error) !in audits {
        forall u ensures CompletedAudits(audits + [QueryFailed(uid, error)], u) == CompletedAudits(audits, u) {
          CompletedAuditsSnoc(audits, QueryFailed(uid, error), u);
        }
        audits := audits + [QueryFailed(uid, error)];
      }
    }

    /** Evaluates the pinned source of a prepared query and completes or fails it. */
    method Conclude(uid: nat, owner: string, subject: string, source: string, work: Outcome, at: int)
      returns (result: Option<Answer>)
      requires Valid() && now <= at && uid in records && records[uid].status == Running
      requires BelongsTo(records[uid], owner, subject) && records[uid].source == source
      modifies this`records, this`audits, this`now
      ensures Valid() && Preserves(old(records), records, uid)
      ensures uid in records && BelongsTo(records[uid], owner, subject) && records[uid].source == source
      ensures work.Evaluated? ==>
                && result == Some(Answer(uid, subject, source, work.content))
                && IsCompleted(records, uid) && records[uid].response == result
      ensures work.Evaluated? ==> audits == old(audits) + [QueryCompleted(uid)]
      ensures records[uid].createdAt == old(records)[uid].createdAt
      ensures work.Raised? ==> result == None && records[uid].status == Failed && records[uid].error == Some(work.error)
      ensures work.Raised? ==> FailureAudited(old(audits), audits, uid, work.error)
    {
      hide Limited, CompletedAudits, CreatedBy, Preserves;
      result := None;
      match work {
        case Raised(error) =>
          Fail(uid, owner, subject, error, at);
        case Evaluated(content) =>
          result := Complete(uid, Answer(uid, subject, source, content), at);
      }
    }

    /** What follows preparing: the failure is recorded, the stored answer given, or the source evaluated. */
    method Proceed(
      uid: nat, owner: string, subject: string, preparation: Preparation, work: Outcome, at: int)
      returns (result: Option<Answer>)
      requires Valid() && now <= at
      requires preparation.Working? ==>
                 && uid in records && records[uid].status == Running && records[uid].source == preparation.source
                 && BelongsTo(records[uid], owner, subject)
      requires preparation.Replayed? ==>
                 && IsCompleted(records, uid) && BelongsTo(records[uid], owner, subject)
                 && records[uid].response == Some(preparation.answer)
      modifies this`records, this`audits, this`now
      ensures Valid() && Preserves(old(records), records, uid)
      ensures result.Some? ==>
                && IsCompleted(records, uid) && records[uid].response == result
                && BelongsTo(records[uid], owner, subject)
      ensures result.Some? && preparation.Working? ==> result.value.source == records[uid].source
      ensures preparation.Replayed? ==> result == Some(preparation.answer)
      ensures preparation.Rejected? ==> result == None
      ensures preparation.Rejected? && (uid in old(records) ==> !BelongsTo(old(records)[uid], owner, subject)) ==>
                records == old(records)
      ensures preparation.Rejected? ==>
                if uid in old(records) then BelongsTo(old(records)[uid], owner, subject) || audits == old(audits)
                else FailureAudited(old(audits), audits, uid, "rejected")
      ensures preparation.Working? ==> records[uid].createdAt == old(records)[uid].createdAt
      ensures preparation.Working? ==>
                && BelongsTo(records[uid], owner, subject) && records[uid].source == preparation.source
                && WorkPromise(uid, subject, preparation.source, work, result, records, old(audits), audits)
    {
      hide Limited, CompletedAudits, CreatedBy, RecordCheck;
      result := None;
      match preparation {
        case Rejected(error) =>
          Fail(uid, owner, subject, "rejected", at);
        case Replayed(answer) =>
          result := Some(answer);
        case Working(source) =>
          result := Conclude(uid, owner, subject, source, work, at);
      }
    }

    /** Prepares the query and proceeds, while nothing else runs. */
    method AnalyzeAlone(
      uid: nat, owner: string, subject: string, official: Option<string>, work: Outcome,
      checkedAt: int, preparedAt: int, endedAt: int)
      returns (result: Option<Answer>)
      requires Valid() && now <= checkedAt <= preparedAt <= endedAt
      modifies this`records, this`audits, this`now
      ensures Valid() && Preserves(old(records), records, uid)
      ensures result.Some? ==>
                && IsCompleted(records, uid) && records[uid].response == result
                && BelongsTo(records[uid], owner, subject)
      ensures result.Some? && !IsCompleted(old(records), uid) ==> result.value.source == records[uid].source
      ensures AnswerPromise(uid, owner, subject, official, MayCreate(old(records), owner, checkedAt, limit), work,
                            old(records), result)
      ensures StoredPromise(uid, owner, subject, official, MayCreate(old(records), owner, checkedAt, limit), preparedAt,
                            work, old(records), result, records, old(audits), audits)
    {
      hide Limited, CompletedAudits, CreatedSince, CreatedBy, RecordCheck, Preserves, PrepareAnswer, PreparedRecord,
           MayCreate, AnswerPromise, StoredPromise, WorkPromise;
      var preparation := Prepare(uid, owner, subject, official, checkedAt, preparedAt);
      ghost var prepared := records;
      result := Proceed(uid, owner, subject, preparation, work, endedAt);
      PreservesTwice(old(records), prepared, records, uid);
      AnalysisFollows(uid, owner, subject, official, MayCreate(old(records), owner, checkedAt, limit), preparedAt, work,
                      old(records), preparation, prepared, result, records, old(audits), audits);
    }

    /**
     * A whole analysis. The clock is read for the rate, for the record, and for the end; `work` is
     * what evaluating the pinned source produced. A completed query answers again what it answered.
     */
    method Analyze(
      uid: nat, owner: string, subject: string, official: Option<string>, work: Outcome,
      checkedAt: int, preparedAt: int, endedAt: int)
      returns (result: Option<Answer>)
      requires Valid() && now <= checkedAt <= preparedAt <= endedAt
      modifies this
      ensures Valid() && running == old(running)
      ensures old(running) ==> result == None && records == old(records) && audits == old(audits)
      ensures Preserves(old(records), records, uid)
      ensures result.Some? ==>
                && IsCompleted(records, uid) && records[uid].response == result
                && BelongsTo(records[uid], owner, subject)
      ensures result.Some? && !IsCompleted(old(records), uid) ==> result.value.source == records[uid].source
      ensures !old(running) && IsCompleted(old(records), uid) && BelongsTo(old(records)[uid], owner, subject) ==>
                result == old(records)[uid].response
      ensures !old(running) ==>
                AnswerPromise(uid, owner, subject, official, MayCreate(old(records), owner, checkedAt, limit), work,
                              old(records), result)
      ensures !old(running) ==>
                StoredPromise(uid, owner, subject, official, MayCreate(old(records), owner, checkedAt, limit),
                              preparedAt, work, old(records), result, records, old(audits), audits)
    {
      result := None;
      if running {
        return;
      }
      hide Limited, CompletedAudits, CreatedSince, CreatedBy, RecordCheck, Preserves, MayCreate, StoredPromise;
      running := true;
      result := AnalyzeAlone(uid, owner, subject, official, work, checkedAt, preparedAt, endedAt);
      running := false;
    }
  }
}
