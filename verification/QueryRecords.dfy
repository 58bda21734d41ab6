/** The record of one analysis query: its legal states and what the commands do to it. */
module QueryRecords {
  import opened Wrappers
  import opened Domain

  datatype QueryStatus = Running | Completed | Failed

  /** What a query answers; `content` is everything beyond the identity of the query. */
  datatype Answer = Answer(queryUid: nat, subject: string, source: string, content: string)

  datatype Record = Record(
    owner: string, subject: string, source: string, status: QueryStatus, evaluated: bool,
    response: Option<Answer>, error: Option<string>, createdAt: int, updatedAt: int, completedAt: Option<int>)

  /** The CHECK constraint; `evaluated` stands for the four evaluation identifiers. */
  predicate RecordCheck(r: Record) {
    match r.status
    case Running => !r.evaluated && r.response.None? && r.error.None? && r.completedAt.None?
    case Completed => r.evaluated && r.response.Some? && r.error.None? && r.completedAt.Some?
    case Failed => r.response.None? && r.error.Some? && r.completedAt.Some?
  }

  /** The trigger on updates. */
  predicate LegalRecordUpdate(before: Record, after: Record) {
    && after.owner == before.owner && after.subject == before.subject && after.source == before.source
    && after.createdAt == before.createdAt && after.updatedAt >= before.updatedAt
    && ((before.status == Running && after.status != Running) || (before.status == Failed && after.status == Running))
  }

  function NewRecord(owner: string, subject: string, source: string, now: int): Record {
    Record(owner, subject, source, Running, false, None, None, now, now, None)
  }

  function Restarted(r: Record, now: int): Record {
    r.(status := Running, evaluated := false, response := None, error := None, updatedAt := now, completedAt := None)
  }

  function Finished(r: Record, answer: Answer, now: int): Record {
    r.(status := Completed, evaluated := true, response := Some(answer), error := None, updatedAt := now,
       completedAt := Some(now))
  }

  function FailedRecord(r: Record, error: string, now: int): Record {
    r.(status := Failed, response := None, error := Some(error), updatedAt := now, completedAt := Some(now))
  }

  predicate BelongsTo(r: Record, owner: string, subject: string) { r.owner == owner && r.subject == subject }

  // ---- prepare

  datatype QueryError = RateLimited | AnotherRequest | NoOfficialAnalysis

  datatype Preparation =
    | Replayed(answer: Answer)
    | Working(source: string)
    | Rejected(error: QueryError)

  function PrepareAnswer(
    found: Option<Record>, owner: string, subject: string, withinRate: bool, official: Option<string>)
    : Preparation
    requires found.Some? ==> RecordCheck(found.value)
  {
    if found.Some? then
      if !BelongsTo(found.value, owner, subject) then Rejected(AnotherRequest)
      else if found.value.status == Completed then Replayed(found.value.response.value)
      else Working(found.value.source)
    else if !withinRate then Rejected(RateLimited)
    else if official.None? then Rejected(NoOfficialAnalysis)
    else Working(official.value)
  }

  function PreparedRecord(
    found: Option<Record>, owner: string, subject: string, withinRate: bool, official: Option<string>, now: int)
    : Option<Record>
  {
    if found.Some? then
      if BelongsTo(found.value, owner, subject) && found.value.status == Failed then Some(Restarted(found.value, now))
      else found
    else if withinRate && official.Some? then Some(NewRecord(owner, subject, official.value, now))
    else None
  }

  function AfterFailure(
      found: Option<Record>, owner: string, subject: string, error: string, now: int)
      : Option<Record>
  {
    if found.Some? && BelongsTo(found.value, owner, subject) && found.value.status == Running then
      Some(FailedRecord(found.value, error, now))
    else found
  }

  /** Every update the commands make is one the table allows, as long as the clock does not run back. */
  lemma UpdatesAreLegal(r: Record, answer: Answer, error: string, now: int)
    requires RecordCheck(r) && r.updatedAt <= now
    ensures r.status == Failed ==> LegalRecordUpdate(r, Restarted(r, now)) && RecordCheck(Restarted(r, now))
    ensures r.status == Running ==>
              LegalRecordUpdate(r, Finished(r, answer, now)) && RecordCheck(Finished(r, answer, now))
    ensures r.status == Running ==>
              LegalRecordUpdate(r, FailedRecord(r, error, now)) && RecordCheck(FailedRecord(r, error, now))
  {
  }
}
