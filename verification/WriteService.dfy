/** The service that reserves, completes, fails and releases, each call a run of protocol steps. */
module WriteService {
  import opened Wrappers
  import opened Domain
  import opened Idempotency
  import opened LeaseProtocol
  import opened LeaseOutcomes

  datatype AuditDetail<R> =
    | OperationCompleted(response: R)
    | AttemptFailed(operationUid: nat, leaseUid: Option<nat>, attempts: nat, error: string)

  datatype AuditRow<R> = AuditRow(uid: nat, action: string, detail: AuditDetail<R>, createdAt: int)

  /** One completion was audited with its response, and nothing else. */
  ghost predicate AuditsCompletion<R>(
    before: seq<AuditRow<R>>, after: seq<AuditRow<R>>, action: string, response: R, at: int)
  {
    |after| == |before| + 1 && after[..|before|] == before
    && after[|before|].action == action && after[|before|].createdAt == at
    && after[|before|].detail == OperationCompleted(response)
  }

  /** The failure of this attempt is among the audits, which otherwise stayed. */
  ghost predicate AuditsFailure<R>(
    before: seq<AuditRow<R>>, after: seq<AuditRow<R>>, action: string, operationUid: nat, leaseUid: nat)
  {
    && before <= after && |after| <= |before| + 1
    && exists a <- after ::
         a.action == action && a.detail.AttemptFailed? && a.detail.operationUid == operationUid
         && a.detail.leaseUid == Some(leaseUid)
  }

  lemma RunSnoc<R>(start: int, trace: seq<Step<R>>, step: Step<R>)
    ensures Run(start, trace + [step]) == Apply(Run(start, trace), step)
  {
    hide Apply;
    assert (trace + [step])[..|trace|] == trace;
  }

  function EndingOf(raises: bool): Ending { if raises then Raises else Normal }

  class WriteService<R(==)> {
    var table: map<Key, Row<R>>
    var active: map<Key, nat>
    var nextUid: nat
    var audits: seq<AuditRow<R>>
    var nextAudit: nat
    /** The protocol steps taken since the clock showed `start`. */
    ghost var start: int
    ghost var trace: seq<Step<R>>

    ghost function Protocol(): State<R>
      reads this
    {
      Run(start, trace)
    }

    ghost predicate Valid()
      reads this
    {
      table == Protocol().table && active == Protocol().active && nextUid == Protocol().nextUid
    }

    constructor (now: int)
      ensures Valid() && trace == [] && start == now
    {
      table, active, nextUid, audits, nextAudit := map[], map[], 0, [], 0;
      start, trace := now, [];
    }

    /** Draws identifiers and reserves the key in memory, unless it is reserved already. */
    method Reserve(ghost c: nat, key: Key, request: string, now: int)
      returns (reserved: bool, operationUid: nat, leaseUid: nat)
      requires Valid() && PhaseOf(Protocol(), c).Idle? && Protocol().now == now
      modifies this`active, this`nextUid, this`trace
      ensures Valid() && trace == old(trace) + [Begin(c, key, request)]
      ensures reserved <==> key !in old(active)
      ensures reserved ==> PhaseOf(Protocol(), c) == Reserved(key, request, operationUid, leaseUid, now)
      ensures operationUid == old(nextUid) && leaseUid == old(nextUid) + 1 && Protocol().now == now
      ensures active == if reserved then old(active)[key := leaseUid] else old(active)
    {
      operationUid, leaseUid := nextUid, nextUid + 1;
      nextUid := nextUid + 2;
      reserved := key !in active;
      if reserved {
        active := active[key := leaseUid];
      }
      RunSnoc(start, trace, Begin(c, key, request));
      trace := trace + [Begin(c, key, request)];
    }

    /** The command that finds the row: inserts it, takes over an expired lease, replays, or refuses. */
    method RunClaim(ghost c: nat, key: Key, request: string, operationUid: nat, leaseUid: nat, now: int)
      returns (answer: Result<Claim<R>, ClaimError>)
      requires Valid() && PhaseOf(Protocol(), c) == Reserved(key, request, operationUid, leaseUid, now)
      modifies this`table, this`trace
      ensures Valid() && trace == old(trace) + [Step.RunClaim(c)]
      ensures answer == ClaimAnswer(key, Lookup(old(table), key), request, operationUid, leaseUid, now)
      ensures var row := ClaimedRow(Lookup(old(table), key), request, operationUid, leaseUid, now);
              row.Some? && table == old(table)[key := row.value]
      ensures key in table
              && ClaimPromise(key, Lookup(old(table), key), request, operationUid, leaseUid, now, answer, table[key])
      ensures PhaseOf(Protocol(), c) == AfterClaim(PhaseOf(old(Protocol()), c), answer)
      ensures Protocol().now == old(Protocol().now)
    {
      var found := Lookup(table, key);
      ClaimExactly(key, found, request, operationUid, leaseUid, now);
      hide ClaimPromise;
      RunSnoc(start, trace, Step.RunClaim(c));
      trace := trace + [Step.RunClaim(c)];
      if found.None? {
        var row := Row(request, operationUid, InProgress, Some(leaseUid), Some(now + 5 * MINUTE), 1, None, None,
                       now, now, None, now + 24 * HOUR);
        table := table[key := row];
        return Ok(Claim(key, request, operationUid, Some(leaseUid), 1, now, None, None));
      }
      var row := found.value;
      if row.request != request {
        assert table[key := row] == table;
        return Err(UsedForAnotherRequest);
      }
      if row.state == Completed {
        assert table[key := row] == table;
        return Ok(Claim(key, request, row.operationUid, row.leaseUid, row.attempts, row.createdAt, row.status, row.response));
      }
      if row.leaseExpires.Some? && row.leaseExpires.value > now {
        assert table[key := row] == table;
        return Err(AlreadyInProgress);
      }
      table := table[key := row.(leaseUid := Some(leaseUid), leaseExpires := Some(now + 5 * MINUTE),
                                 attempts := row.attempts + 1, updatedAt := now)];
      return Ok(Claim(key, request, row.operationUid, Some(leaseUid), row.attempts + 1, row.createdAt, row.status, row.response));
    }

    /** Removes the reservation in memory if it is the given lease's. */
    method ReleaseActive(ghost c: nat, key: Key, leaseUid: nat)
      requires Valid() && PhaseOf(Protocol(), c).Settled?
      requires PhaseOf(Protocol(), c).key == key && PhaseOf(Protocol(), c).leaseUid == leaseUid
      modifies this`active, this`trace
      ensures Valid() && trace == old(trace) + [Step.Release(c)]
      ensures active == if Lookup(old(active), key) == Some(leaseUid) then old(active) - {key} else old(active)
      ensures PhaseOf(Protocol(), c) == PhaseOf(old(Protocol()), c) && Protocol().now == old(Protocol().now)
    {
      if key in active && active[key] == leaseUid {
        active := active - {key};
      }
      RunSnoc(start, trace, Step.Release(c));
      trace := trace + [Step.Release(c)];
    }

    /** A whole claim that no other step interrupts. */
    method MakeClaim(ghost c: nat, key: Key, request: string, now: int) returns (answer: Result<Claim<R>, ClaimError>)
      requires Valid() && PhaseOf(Protocol(), c).Idle? && Protocol().now == now
      modifies this`table, this`active, this`nextUid, this`trace
      ensures Valid() && old(trace) <= trace && Protocol().now == now
      ensures key in old(active) ==>
                answer == Err(AlreadyInProgress) && table == old(table) && active == old(active)
      ensures key !in old(active) ==>
                && answer == ClaimAnswer(key, Lookup(old(table), key), request, old(nextUid), old(nextUid) + 1, now)
                && key in table && table.Keys == old(table).Keys + {key}
                && (forall k <- old(table) :: k != key ==> table[k] == old(table)[k])
                && ClaimPromise(key, Lookup(old(table), key), request, old(nextUid), old(nextUid) + 1, now, answer,
                                table[key])
                && (var row := ClaimedRow(Lookup(old(table), key), request, old(nextUid), old(nextUid) + 1, now);
                    row.Some? && table == old(table)[key := row.value])
                && active == (if Granted(answer) then old(active)[key := old(nextUid) + 1] else old(active))
                && (Granted(answer) ==> PhaseOf(Protocol(), c) == Holding(answer.value))
    {
      hide ClaimAnswer, ClaimedRow, ClaimPromise, Run;
      var reserved, operationUid, leaseUid := Reserve(c, key, request, now);
      if !reserved {
        return Err(AlreadyInProgress);
      }
      answer := RunClaim(c, key, request, operationUid, leaseUid, now);
      if answer.Err? || answer.value.response.Some? {
        ReleaseActive(c, key, leaseUid);
        assert active == old(active);
      }
    }

    method BeginComplete(ghost c: nat, claim: Claim<R>, status: int, response: R, now: int)
      requires Valid() && PhaseOf(Protocol(), c) == Holding(claim) && Protocol().now == now
      modifies this`trace
      ensures Valid() && trace == old(trace) + [Step.BeginComplete(c, status, response)]
      ensures PhaseOf(Protocol(), c) == Completing(claim, status, response, now)
    {
      RunSnoc(start, trace, Step.BeginComplete(c, status, response));
      trace := trace + [Step.BeginComplete(c, status, response)];
    }

    /**
     * The completing command, up to its commit: refused, answered from the stored row, or published
     * and stored. `published` says whether the publish callback ran; if that `raises`, nothing is
     * stored or audited.
     */
    method RunComplete(
      ghost c: nat, claim: Claim<R>, status: int, response: R, action: string, raises: bool, now: int)
      returns (answer: Option<R>, published: bool)
      requires Valid() && RowsChecked(Protocol()) && ClaimsStand(Protocol())
      requires PhaseOf(Protocol(), c) == Completing(claim, status, response, now)
      modifies this`table, this`nextAudit, this`audits, this`trace
      ensures Valid() && trace == old(trace) + [Step.RunComplete(c, EndingOf(raises))]
      ensures published <==> Publishes(old(Protocol()), c)
      ensures PhaseOf(Protocol(), c).Settled? && answer == PhaseOf(Protocol(), c).answer
      ensures published && answer.Some? ==>
                && audits == old(audits) + [AuditRow(old(nextAudit), action, OperationCompleted(response), now)]
                && answer == Some(response) && claim.key in old(table)
                && table == old(table)[claim.key := CompletedRow(old(table)[claim.key], status, response, now)]
      ensures published && !raises && SuccessStatus(status) && OnTime(old(Protocol()), PhaseOf(old(Protocol()), c)) ==>
                answer.Some?
      ensures published && raises ==> answer.None?
      ensures !(published && answer.Some?) ==> audits == old(audits) && table == old(table)
    {
      ghost var before := Protocol();
      assert Claimed(before, claim);
      RunSnoc(start, trace, Step.RunComplete(c, EndingOf(raises)));
      trace := trace + [Step.RunComplete(c, EndingOf(raises))];
      hide Run, RowCheck;
      var row := table[claim.key];
      if row.request != claim.request || row.operationUid != claim.operationUid {
        return None, false;
      }
      if row.state == Completed {
        return row.response, false;
      }
      if claim.leaseUid.None? || row.leaseUid != claim.leaseUid {
        return None, false;
      }
      published := true;
      if raises {
        return None, true;
      }
      if row.updatedAt > now || !(200 <= status <= 299) {
        return None, true;
      }
      table := table[claim.key := row.(state := Completed, status := Some(status), response := Some(response),
                                       updatedAt := now, completedAt := Some(now))];
      audits := audits + [AuditRow(nextAudit, action, OperationCompleted(response), now)];
      nextAudit := nextAudit + 1;
      answer := Some(response);
    }

    /** The failure of an attempt is audited once; the row is left for a later attempt. */
    method Fail(claim: Claim<R>, action: string, error: string, now: int) returns (known: bool)
      modifies this`nextAudit, this`audits
      ensures known <==> claim.key in table && table[claim.key].request == claim.request
                         && table[claim.key].operationUid == claim.operationUid
      ensures var detail := AttemptFailed(claim.operationUid, claim.leaseUid, claim.attempts, error);
              && (known ==> exists a <- audits :: a.action == action && a.detail == detail)
              && (audits == old(audits)
                  || (known && (forall a <- old(audits) :: a.action != action || a.detail != detail)
                      && audits == old(audits) + [AuditRow(old(nextAudit), action, detail, now)]))
      ensures !known ==> audits == old(audits)
    {
      known := claim.key in table && table[claim.key].request == claim.request
        && table[claim.key].operationUid == claim.operationUid;
      if !known {
        return;
      }
      var detail := AttemptFailed(claim.operationUid, claim.leaseUid, claim.attempts, error);
      if exists a <- audits :: a.action == action && a.detail == detail {
        return;
      }
      audits := audits + [AuditRow(nextAudit, action, detail, now)];
      assert audits[|audits| - 1].detail == detail && audits[|audits| - 1] in audits;
      nextAudit := nextAudit + 1;
    }

    /** The work of a claim raised: nothing is stored. */
    ghost method GiveUp(c: nat)
      requires Valid() && PhaseOf(Protocol(), c).Holding?
      modifies this`trace
      ensures Valid() && trace == old(trace) + [Step.GiveUp(c)]
      ensures PhaseOf(Protocol(), c)
              == (var claim := PhaseOf(old(Protocol()), c).claim; Settled(claim.key, claim.request, LeaseOf(claim), None))
    {
      RunSnoc(start, trace, Step.GiveUp(c));
      trace := trace + [Step.GiveUp(c)];
    }

    /** A whole completion: the command, and the release that always follows it. */
    method CompleteClaim(
      ghost c: nat, claim: Claim<R>, status: int, response: R, action: string, raises: bool, now: int)
      returns (answer: Option<R>, published: bool)
      requires Valid() && PhaseOf(Protocol(), c) == Holding(claim) && Protocol().now == now
      modifies this`table, this`nextAudit, this`audits, this`active, this`trace
      ensures Valid() && PhaseOf(Protocol(), c).Settled?
      ensures claim.leaseUid.Some?
      ensures active == if Lookup(old(active), claim.key) == claim.leaseUid then old(active) - {claim.key} else old(active)
      ensures published && answer.Some? ==>
                && answer == Some(response) && claim.key in old(table)
                && table == old(table)[claim.key := CompletedRow(old(table)[claim.key], status, response, now)]
                && table[claim.key] == old(table)[claim.key].(state := Completed, status := Some(status),
                                                              response := Some(response), updatedAt := now,
                                                              completedAt := Some(now))
                && audits == old(audits) + [AuditRow(old(nextAudit), action, OperationCompleted(response), now)]
      ensures !(published && answer.Some?) ==> table == old(table) && audits == old(audits)
      ensures published && raises ==> answer.None?
      ensures !published && answer.Some? ==>
                claim.key in table && table[claim.key].state == Completed && table[claim.key].response == answer
      ensures published <==> claim.key in old(table) && old(table)[claim.key].state == InProgress
                             && old(table)[claim.key].leaseUid == claim.leaseUid
      ensures published && !raises && SuccessStatus(status) ==> answer.Some?
      ensures claim.key in old(table) && old(table)[claim.key].operationUid == claim.operationUid
              && old(table)[claim.key].request == claim.request
      ensures old(table)[claim.key].state == Completed ==> answer == old(table)[claim.key].response
      ensures old(table)[claim.key].state == InProgress && old(table)[claim.key].leaseUid != claim.leaseUid ==>
                answer == None
    {
      hide Run, RowsChecked, Drawn, Apart, AllCounted, GrantsDiffer, PublishedOnce, Commits;
      PromisesOfRun(start, trace);
      BeginComplete(c, claim, status, response, now);
      ghost var before := Protocol();
      PromisesOfRun(start, trace);
      CompleteCases(before, c, EndingOf(raises));
      if !Publishes(before, c) { CompleteCasesAnswer(before, c, EndingOf(raises)); }
      answer, published := RunComplete(c, claim, status, response, action, raises, now);
      RunSnoc(start, trace[..|trace| - 1], Step.RunComplete(c, EndingOf(raises)));
      assert trace == trace[..|trace| - 1] + [Step.RunComplete(c, EndingOf(raises))];
      ReleaseActive(c, claim.key, claim.leaseUid.value);
      RunSnoc(start, trace[..|trace| - 1], Step.Release(c));
      assert trace == trace[..|trace| - 1] + [Step.Release(c)];
    }
  }

  /** A completing client that does not publish is answered from a completed row. */
  lemma CompleteCasesAnswer<R>(s: State<R>, c: nat, ending: Ending)
    requires RowsChecked(s) && ClaimsStand(s) && PhaseOf(s, c).Completing? && !Publishes(s, c)
    ensures var after := RunCompleteStep(s, c, ending); var p := PhaseOf(s, c);
            && after.table == s.table && PhaseOf(after, c).Settled? && PhaseOf(after, c).key == p.claim.key
            && (PhaseOf(after, c).answer.Some? ==>
                  && Done(s, p.claim.key) && s.table[p.claim.key].response == PhaseOf(after, c).answer)
  {
    assert Claimed(s, PhaseOf(s, c).claim);
  }
}
