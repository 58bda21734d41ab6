/** The backup route as one request runs it: claim, verify or stage, complete and publish, clean up. */
module BackupRoute {
  import opened Wrappers
  import opened Domain
  import opened Idempotency
  import opened LeaseProtocol
  import opened LeaseOutcomes
  import opened BackupProtocol
  import W = WriteService

  const OPERATION := "CREATE_BACKUP"
  const REQUEST := "online-backup"

  /** What publishing does: moves the staged file, or raises before (the move fails) or after (syncing fails). */
  datatype Publishing = Moves | RaisesBefore(error: string) | RaisesAfter(error: string)

  /** What the request meets: whether a file at the destination verifies, the new backup if one can be made. */
  datatype Surroundings = Surroundings(intact: bool, content: Option<File>, publishing: Publishing)

  class BackupRoute {
    const writes: W.WriteService<Backup>
    var files: map<nat, File>
    var staged: map<(nat, nat), File>

    /** Every completed backup is recorded with the file at its place. */
    ghost predicate Valid()
      reads this, writes
    {
      && writes.Valid()
      && forall key <- writes.table :: IsRecorded(writes.table[key], files)
    }

    constructor (now: int)
      ensures Valid() && fresh(writes) && files == map[] && staged == map[]
      ensures writes.start == now && writes.trace == []
    {
      writes := new W.WriteService<Backup>(now);
      files, staged := map[], map[];
    }

    /** No backup can be made: the failure is audited and the key given back. */
    method Abandon(ghost c: nat, claim: Claim<Backup>, now: int)
      requires Valid() && PhaseOf(writes.Protocol(), c) == Holding(claim) && claim.leaseUid.Some?
      modifies writes
      ensures Valid() && writes.table == old(writes.table)
      ensures writes.active
              == if Lookup(old(writes.active), claim.key) == claim.leaseUid then old(writes.active) - {claim.key}
                 else old(writes.active)
      ensures claim.key in old(writes.table) && old(writes.table)[claim.key].request == claim.request
              && old(writes.table)[claim.key].operationUid == claim.operationUid ==>
                W.AuditsFailure(old(writes.audits), writes.audits, "BACKUP_FAILED", claim.operationUid, claim.leaseUid.value)
    {
      hide Run;
      writes.GiveUp(c);
      var known := writes.Fail(claim, "BACKUP_FAILED", "BackupError", now);
      writes.ReleaseActive(c, claim.key, LeaseOf(claim));
    }

    /** The work under a granted claim: verify or stage, complete and publish, and always clean up. */
    method RunClaimed(ghost c: nat, claim: Claim<Backup>, now: int, around: Surroundings)
      returns (answer: Option<Backup>)
      requires Valid() && PhaseOf(writes.Protocol(), c) == Holding(claim) && writes.Protocol().now == now
      requires StagedName(claim) !in staged && claim.leaseUid.Some? && claim.key in writes.table
      requires writes.table[claim.key].operationUid == claim.operationUid && writes.table[claim.key].state == InProgress
      requires writes.table[claim.key].request == claim.request
      modifies this, writes
      ensures Valid() && staged == old(staged)
      ensures writes.active
              == if Lookup(old(writes.active), claim.key) == claim.leaseUid then old(writes.active) - {claim.key}
                 else old(writes.active)
      ensures forall uid <- old(files) :: uid in files && files[uid] == old(files)[uid]
      ensures forall uid <- files :: uid in old(files) || (uid == claim.operationUid && Some(files[uid]) == around.content)
      ensures answer.None? ==> writes.table == old(writes.table)
      ensures claim.key in writes.table && writes.table[claim.key].request == old(writes.table)[claim.key].request
      ensures writes.table[claim.key].operationUid == claim.operationUid
      ensures answer.Some? ==> writes.table[claim.key].state == Completed && writes.table[claim.key].response == answer
      ensures old(writes.table)[claim.key].leaseUid == claim.leaseUid ==>
                && BackupPromise(claim.operationUid, claim.createdAt, old(files), around, answer, files)
                && AuditPromise(claim.operationUid, claim.leaseUid.value, answer, old(writes.audits), writes.audits, now)
    {
      hide Run, IsRecorded;
      var uid, name := claim.operationUid, StagedName(claim);
      var file: File;
      var publish := false;
      if uid in files && around.intact {
        file := files[uid];
      } else if uid in files || around.content.None? {
        Abandon(c, claim, now);
        return None;
      } else {
        file, publish := around.content.value, true;
        staged := staged[name := file];
      }
      answer := Finish(c, claim, file, publish, now, around.publishing);
      staged := staged - {name};
    }

    /** Completes the claim; what publishing moved stays, whatever comes of the transaction. */
    method Finish(ghost c: nat, claim: Claim<Backup>, file: File, publish: bool, now: int, publishing: Publishing)
      returns (answer: Option<Backup>)
      requires Valid() && PhaseOf(writes.Protocol(), c) == Holding(claim) && writes.Protocol().now == now
      requires claim.leaseUid.Some? && claim.key in writes.table && writes.table[claim.key].state == InProgress
      requires writes.table[claim.key].operationUid == claim.operationUid
      requires if publish then StagedName(claim) in staged && staged[StagedName(claim)] == file
               else claim.operationUid in files && files[claim.operationUid] == file
      requires publish ==> claim.operationUid !in files
      modifies this`files, writes
      ensures Valid()
      ensures writes.active
              == if Lookup(old(writes.active), claim.key) == claim.leaseUid then old(writes.active) - {claim.key}
                 else old(writes.active)
      ensures files == old(files) || (publish && files == old(files)[claim.operationUid := file])
      ensures answer.None? ==> writes.table == old(writes.table)
      ensures claim.key in writes.table && writes.table[claim.key].request == old(writes.table)[claim.key].request
      ensures writes.table[claim.key].operationUid == claim.operationUid
      ensures answer.Some? ==> writes.table[claim.key].state == Completed && writes.table[claim.key].response == answer
      ensures old(writes.table)[claim.key].leaseUid == claim.leaseUid ==>
                && answer == (if publish && !publishing.Moves? then None else Some(BackupOf(claim, file)))
                && files == (if publish && !publishing.RaisesBefore? then old(files)[claim.operationUid := file]
                             else old(files))
                && AuditPromise(claim.operationUid, claim.leaseUid.value, answer, old(writes.audits), writes.audits, now)
    {
      hide Run;
      var published: bool;
      answer, published := writes.CompleteClaim(c, claim, 201, BackupOf(claim, file), "BACKUP_CREATED",
                                                publish && !publishing.Moves?, now);
      if published && publish && !publishing.RaisesBefore? {
        files := files[claim.operationUid := staged[StagedName(claim)]];
      }
      if answer.None? {
        var raised := if published && publish && !publishing.Moves? then publishing.error else "IdempotencyConflictError";
        var known := writes.Fail(claim, "BACKUP_FAILED", raised, now);
      }
    }

    /**
     * One request; what the route raises on is answered with nothing. A completed backup is answered
     * again without touching a file, and no file that is there is ever changed.
     */
    method CreateBackup(ghost c: nat, owner: string, idempotencyKey: string, now: int, around: Surroundings)
      returns (answer: Option<Backup>)
      requires Valid() && PhaseOf(writes.Protocol(), c).Idle? && writes.Protocol().now == now
      requires forall name <- staged :: name.1 < writes.nextUid
      modifies this, writes
      ensures Valid() && staged == old(staged)
      ensures var key := Key(owner, OPERATION, idempotencyKey); Lookup(writes.active, key) == Lookup(old(writes.active), key)
      ensures forall uid <- old(files) :: uid in files && files[uid] == old(files)[uid]
      ensures answer.Some? ==>
                var key := Key(owner, OPERATION, idempotencyKey);
                && key in writes.table && writes.table[key].state == Completed && writes.table[key].request == REQUEST
                && writes.table[key].response == answer && IsRecorded(writes.table[key], files)
      ensures var key := Key(owner, OPERATION, idempotencyKey);
              key in old(writes.table) && old(writes.table)[key].state == Completed && key !in old(writes.active)
              && old(writes.table)[key].request == REQUEST ==>
                && answer == old(writes.table)[key].response && files == old(files)
                && writes.audits == old(writes.audits)
      ensures var key := Key(owner, OPERATION, idempotencyKey);
              key !in old(writes.active) && key !in old(writes.table) ==>
                && BackupPromise(old(writes.nextUid), now, old(files), around, answer, files)
                && AuditPromise(old(writes.nextUid), old(writes.nextUid) + 1, answer, old(writes.audits), writes.audits,
                                now)
                && key in writes.table && writes.table[key].operationUid == old(writes.nextUid)
                && (answer.None? ==> writes.table[key].state == InProgress)
      ensures var key := Key(owner, OPERATION, idempotencyKey);
              key !in old(writes.active) && key in old(writes.table) && LeaseEnded(old(writes.table)[key], now) ==>
                && BackupPromise(old(writes.table)[key].operationUid, old(writes.table)[key].createdAt, old(files), around,
                                 answer, files)
                && AuditPromise(old(writes.table)[key].operationUid, old(writes.nextUid) + 1, answer, old(writes.audits),
                                writes.audits, now)
                && (answer.None? ==> key in writes.table && writes.table[key].state == InProgress)
      ensures var key := Key(owner, OPERATION, idempotencyKey);
              key in old(writes.active)
              || (key in old(writes.table) && old(writes.table)[key].request != REQUEST)
              || (key in old(writes.table) && old(writes.table)[key].state == InProgress
                  && !LeaseEnded(old(writes.table)[key], now)) ==>
                answer == None && files == old(files) && writes.table == old(writes.table)
                && writes.audits == old(writes.audits)
    {
      hide RowCheck, Run, ClaimAnswer, ClaimedRow, BackupPromise, AuditPromise;
      var key := Key(owner, OPERATION, idempotencyKey);
      RowsAreChecked();
      ClaimFacts(key, Lookup(writes.table, key), REQUEST, writes.nextUid, writes.nextUid + 1, now);
      var claimed := writes.MakeClaim(c, key, REQUEST, now);
      if claimed.Err? {
        return None;
      }
      if claimed.value.response.Some? {
        return claimed.value.response;
      }
      answer := RunClaimed(c, claimed.value, now, around);
    }

    lemma RowsAreChecked()
      requires writes.Valid()
      ensures forall key <- writes.table :: RowCheck(writes.table[key])
    {
      InvOfRun(writes.start, writes.trace);
    }
  }

  /** Another attempt may take the backup over. */
  predicate LeaseEnded(row: Row<Backup>, now: int) {
    && row.request == REQUEST && row.state == InProgress
    && (row.leaseExpires.None? || row.leaseExpires.value <= now)
  }

  /**
   * What a granted request answers and leaves behind: the file that is there, the new backup once it is
   * moved to its place, or nothing.
   */
  ghost predicate BackupPromise(
    uid: nat, createdAt: int, before: map<nat, File>, around: Surroundings, answer: Option<Backup>,
    after: map<nat, File>)
  {
    && (uid in before && around.intact ==>
          answer == Some(Backup(uid, before[uid].digest, before[uid].size, createdAt)) && after == before)
    && (uid in before && !around.intact ==> answer == None && after == before)
    && (uid !in before && around.content.None? ==> answer == None && after == before)
    && (uid !in before && around.content.Some? ==>
          var file := around.content.value;
          match around.publishing
          case Moves => answer == Some(Backup(uid, file.digest, file.size, createdAt)) && after == before[uid := file]
          case RaisesBefore(_) => answer == None && after == before
          case RaisesAfter(_) => answer == None && after == before[uid := file])
  }

  /** The outcome of a granted request is audited: the backup once, or the failed attempt. */
  ghost predicate AuditPromise(
    uid: nat, leaseUid: nat, answer: Option<Backup>, before: seq<W.AuditRow<Backup>>, after: seq<W.AuditRow<Backup>>,
    now: int)
  {
    if answer.Some? then W.AuditsCompletion(before, after, "BACKUP_CREATED", answer.value, now)
    else W.AuditsFailure(before, after, "BACKUP_FAILED", uid, leaseUid)
  }

  predicate IsRecorded(row: Row<Backup>, files: map<nat, File>) {
    row.state == Completed ==>
      && row.operationUid in files && row.response.Some?
      && row.response.value.backupUid == row.operationUid
      && row.response.value.digest == files[row.operationUid].digest
      && row.response.value.size == files[row.operationUid].size
  }
}
