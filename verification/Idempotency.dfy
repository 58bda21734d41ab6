/** The reservation rows: what the table's constraints allow, and what the commands do to one row. */
module Idempotency {
  import opened Wrappers
  import opened Domain

  /** Hashes are injective, so the key and the request stand for themselves. */
  datatype Key = Key(owner: string, operation: string, idempotencyKey: string)

  datatype OperationState = InProgress | Completed

  datatype Row<R> = Row(
    request: string, operationUid: nat, state: OperationState, leaseUid: Option<nat>,
    leaseExpires: Option<int>, attempts: nat, status: Option<int>, response: Option<R>,
    createdAt: int, updatedAt: int, completedAt: Option<int>, expiresAt: int)

  datatype Claim<R> = Claim(
    key: Key, request: string, operationUid: nat, leaseUid: Option<nat>, attempts: nat, createdAt: int,
    status: Option<int>, response: Option<R>)

  // ---- the constraints of the table

  predicate SuccessStatus(status: int) { 200 <= status <= 299 }

  /** The CHECK constraints on a row. */
  predicate RowCheck<R>(row: Row<R>) {
    && row.attempts > 0
    && (row.status.Some? ==> SuccessStatus(row.status.value))
    && row.expiresAt > row.createdAt
    && match row.state
       case InProgress =>
         row.leaseUid.Some? && row.leaseExpires.Some? && row.leaseExpires.value > row.updatedAt
         && row.status.None? && row.response.None? && row.completedAt.None?
       case Completed =>
         row.status.Some? && row.response.Some? && row.completedAt.Some?
  }

  /** The trigger on updates: a lease is replaced when it has expired, or the operation completes. */
  predicate LegalUpdate<R>(before: Row<R>, after: Row<R>) {
    && after.request == before.request && after.operationUid == before.operationUid
    && after.createdAt == before.createdAt && after.expiresAt == before.expiresAt
    && before.state == InProgress
    && match after.state
       case InProgress =>
         && before.leaseExpires.Some? && before.leaseExpires.value <= after.updatedAt
         && after.leaseUid != before.leaseUid
         && after.attempts == before.attempts + 1
         && after.updatedAt >= before.updatedAt
       case Completed =>
         && after.leaseUid == before.leaseUid && after.leaseExpires == before.leaseExpires
         && after.attempts == before.attempts
         && after.updatedAt >= before.updatedAt
         && after.completedAt == Some(after.updatedAt)
  }

  // ---- claim

  datatype ClaimError = AlreadyInProgress | UsedForAnotherRequest

  function FirstRow<R>(request: string, operationUid: nat, leaseUid: nat, now: int): Row<R> {
    Row(request, operationUid, InProgress, Some(leaseUid), Some(now + 5 * MINUTE), 1, None, None,
        now, now, None, now + 24 * HOUR)
  }

  function TakenOver<R>(row: Row<R>, leaseUid: nat, now: int): Row<R> {
    row.(leaseUid := Some(leaseUid), leaseExpires := Some(now + 5 * MINUTE), attempts := row.attempts + 1,
         updatedAt := now)
  }

  predicate LeaseRuns<R>(row: Row<R>, now: int) { row.leaseExpires.Some? && row.leaseExpires.value > now }

  function ClaimOf<R>(key: Key, row: Row<R>): Claim<R> {
    Claim(key, row.request, row.operationUid, row.leaseUid, row.attempts, row.createdAt, row.status, row.response)
  }

  /** The row after a claim: created, taken over, or as it was. */
  function ClaimedRow<R>(
      found: Option<Row<R>>, request: string, operationUid: nat, leaseUid: nat, now: int)
      : Option<Row<R>>
  {
    if found.None? then Some(FirstRow(request, operationUid, leaseUid, now))
    else if found.value.request == request && found.value.state == InProgress && !LeaseRuns(found.value, now) then
      Some(TakenOver(found.value, leaseUid, now))
    else found
  }

  function ClaimAnswer<R>(
    key: Key, found: Option<Row<R>>, request: string, operationUid: nat, leaseUid: nat, now: int)
    : Result<Claim<R>, ClaimError>
  {
    if found.None? then Ok(ClaimOf(key, FirstRow(request, operationUid, leaseUid, now)))
    else if found.value.request != request then Err(UsedForAnotherRequest)
    else if found.value.state == Completed then Ok(ClaimOf(key, found.value))
    else if LeaseRuns(found.value, now) then Err(AlreadyInProgress)
    else Ok(ClaimOf(key, TakenOver(found.value, leaseUid, now)))
  }

  /** Whatever a claim writes is allowed by the table: the trigger never aborts it. */
  lemma ClaimIsLegal<R>(found: Option<Row<R>>, request: string, operationUid: nat, leaseUid: nat, now: int)
    requires found.Some? ==> RowCheck(found.value) && found.value.leaseUid != Some(leaseUid)
    ensures var row := ClaimedRow(found, request, operationUid, leaseUid, now);
            && row.Some? && RowCheck(row.value)
            && (found.Some? && row != found ==> LegalUpdate(found.value, row.value))
  {
  }

  /**
   * What a claim answers and leaves, in the row's own fields: a new row or an expired lease is granted
   * for five minutes, a running lease and another request are refused, a completed row is read back.
   */
  ghost predicate ClaimPromise<R>(
    key: Key, found: Option<Row<R>>, request: string, operationUid: nat, leaseUid: nat, now: int,
    answer: Result<Claim<R>, ClaimError>, row: Row<R>)
  {
    && (found.None? ==>
          && answer == Ok(Claim(key, request, operationUid, Some(leaseUid), 1, now, None, None))
          && row == Row(request, operationUid, InProgress, Some(leaseUid), Some(now + 300_000_000), 1, None, None,
                        now, now, None, now + 86_400_000_000))
    && (found.Some? && found.value.request != request ==> answer == Err(UsedForAnotherRequest) && row == found.value)
    && (found.Some? && found.value.request == request && found.value.state == Completed ==>
          && answer.Ok? && answer.value.key == key && answer.value.operationUid == found.value.operationUid
          && answer.value.response == found.value.response && answer.value.status == found.value.status
          && row == found.value)
    && (found.Some? && found.value.request == request && found.value.state == InProgress
        && found.value.leaseExpires.Some? && found.value.leaseExpires.value > now ==>
          answer == Err(AlreadyInProgress) && row == found.value)
    && (found.Some? && found.value.request == request && found.value.state == InProgress
        && (found.value.leaseExpires.None? || found.value.leaseExpires.value <= now) ==>
          && answer == Ok(Claim(key, request, found.value.operationUid, Some(leaseUid), found.value.attempts + 1,
                                found.value.createdAt, found.value.status, found.value.response))
          && row.leaseUid == Some(leaseUid) && row.leaseExpires == Some(now + 300_000_000)
          && row.attempts == found.value.attempts + 1 && row.updatedAt == now
          && row.(leaseUid := found.value.leaseUid, leaseExpires := found.value.leaseExpires,
                  attempts := found.value.attempts, updatedAt := found.value.updatedAt) == found.value)
  }

  lemma ClaimExactly<R>(
    key: Key, found: Option<Row<R>>, request: string, operationUid: nat, leaseUid: nat, now: int)
    ensures var row := ClaimedRow(found, request, operationUid, leaseUid, now);
            row.Some? && ClaimPromise(key, found, request, operationUid, leaseUid, now,
                                      ClaimAnswer(key, found, request, operationUid, leaseUid, now), row.value)
  {
  }

  // ---- complete

  datatype CompleteAnswer<R> =
    | Lost           // the reservation is another's, or its lease changed
    | Stored(response: R)
    | Publishing     // the caller holds the lease and may publish and complete

  function CompleteDecision<R>(row: Row<R>, claim: Claim<R>): CompleteAnswer<R>
    requires RowCheck(row)
  {
    if row.request != claim.request || row.operationUid != claim.operationUid then Lost
    else if row.state == Completed then Stored(row.response.value)
    else if claim.leaseUid.None? || row.leaseUid != claim.leaseUid then Lost
    else Publishing
  }

  function CompletedRow<R>(row: Row<R>, status: int, response: R, now: int): Row<R> {
    row.(state := Completed, status := Some(status), response := Some(response), updatedAt := now,
         completedAt := Some(now))
  }

  /** The update that completes is accepted by the table exactly when the clock has not run back. */
  lemma CompletionIsLegal<R>(row: Row<R>, claim: Claim<R>, status: int, response: R, now: int)
    requires RowCheck(row) && CompleteDecision(row, claim) == Publishing
    ensures LegalUpdate(row, CompletedRow(row, status, response, now)) && RowCheck(CompletedRow(row, status, response, now))
            <==> row.updatedAt <= now && SuccessStatus(status)
  {
  }

  /** COMPLETED is terminal: the trigger refuses every update of a completed row. */
  lemma CompletedIsTerminal<R>(before: Row<R>, after: Row<R>)
    requires before.state == Completed
    ensures !LegalUpdate(before, after)
  {
  }
}
