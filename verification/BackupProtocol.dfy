/**
 * Online backups on top of the lease protocol: verify, stage, publish inside the transaction that
 * completes, clean up; with publishing that raises and crashes before the commit.
 */
module BackupProtocol {
  import opened Wrappers
  import opened Domain
  import opened Idempotency
  import opened LeaseProtocol
  import opened LeaseOutcomes

  /** A database file; only verified ones are staged, and publishing renames a staged one. */
  datatype File = File(digest: string, size: nat)

  datatype Backup = Backup(backupUid: nat, digest: string, size: nat, createdAt: int)

  datatype Work =
    | Absent                        // no destination file was found
    | Ready(file: File, staged: bool)

  datatype Backups = Backups(
    protocol: State<Backup>, files: map<nat, File>, staged: map<(nat, nat), File>, work: map<nat, Work>,
    writes: seq<nat>)

  /** How the completing transaction ends, and whether the staged file had been moved if it did not end well. */
  datatype End = End(ending: Ending, moved: bool)

  datatype BackupStep =
    | Common(step: Step<Backup>)       // any protocol step but the two of completing
    | Verify(client: nat)
    | Stage(client: nat, content: File)
    | CallComplete(client: nat)
    | Finish(client: nat, end: End)
    | Unlink(client: nat)

  function BackupOf(claim: Claim<Backup>, file: File): Backup {
    Backup(claim.operationUid, file.digest, file.size, claim.createdAt)
  }

  function StagedName(claim: Claim<Backup>): (nat, nat) { (claim.operationUid, LeaseOf(claim)) }

  /** Looks for the destination file; one that was published before is reused. */
  function VerifyStep(s: Backups, c: nat): Backups {
    var p := PhaseOf(s.protocol, c);
    if !p.Holding? || c in s.work then s
    else
      var uid := p.claim.operationUid;
      s.(work := s.work[c := if uid in s.files then Ready(s.files[uid], false) else Absent])
  }

  function StageStep(s: Backups, c: nat, content: File): Backups {
    var p := PhaseOf(s.protocol, c);
    if !p.Holding? || Lookup(s.work, c) != Some(Absent) then s
    else s.(staged := s.staged[StagedName(p.claim) := content], work := s.work[c := Ready(content, true)])
  }

  function CallCompleteStep(s: Backups, c: nat): Backups {
    var p := PhaseOf(s.protocol, c);
    if !p.Holding? || c !in s.work || !s.work[c].Ready? then s
    else s.(protocol := BeginCompleteStep(s.protocol, c, 201, BackupOf(p.claim, s.work[c].file)))
  }

  /** The completing transaction has a staged file to move to its destination. */
  predicate HasStaged(s: Backups, c: nat) {
    && Publishes(s.protocol, c) && c in s.work && s.work[c].Ready? && s.work[c].staged
    && StagedName(PhaseOf(s.protocol, c).claim) in s.staged
  }

  /** It moves it, unless publishing raises or the process dies before. */
  predicate MovesFile(s: Backups, c: nat, end: End) { HasStaged(s, c) && (end.ending.Normal? || end.moved) }

  function FinishStep(s: Backups, c: nat, end: End): Backups {
    var p, after := PhaseOf(s.protocol, c), RunCompleteStep(s.protocol, c, end.ending);
    if !MovesFile(s, c, end) then s.(protocol := after)
    else
      var uid, name := p.claim.operationUid, StagedName(p.claim);
      s.(protocol := after, files := s.files[uid := s.staged[name]], staged := s.staged - {name},
         writes := s.writes + [uid])
  }

  function UnlinkStep(s: Backups, c: nat): Backups {
    var p := PhaseOf(s.protocol, c);
    if !p.Settled? then s else s.(staged := map name | name in s.staged && name.1 != p.leaseUid :: s.staged[name])
  }

  function ApplyBackup(s: Backups, step: BackupStep): Backups {
    match step
    case Common(t) => if t.BeginComplete? || t.RunComplete? then s else s.(protocol := Apply(s.protocol, t))
    case Verify(c) => VerifyStep(s, c)
    case Stage(c, content) => StageStep(s, c, content)
    case CallComplete(c) => CallCompleteStep(s, c)
    case Finish(c, end) => FinishStep(s, c, end)
    case Unlink(c) => UnlinkStep(s, c)
  }

  function RunBackups(now: int, steps: seq<BackupStep>): Backups {
    if steps == [] then Backups(Start(now), map[], map[], map[], [])
    else ApplyBackup(RunBackups(now, steps[..|steps| - 1]), steps[|steps| - 1])
  }

  // ---- the protocol underneath

  /** Each step of the backups is a protocol step or none. */
  lemma {:induction false} ProtocolKeepsPromises(now: int, steps: seq<BackupStep>)
    ensures Promises(RunBackups(now, steps).protocol)
  {
    if steps == [] {
      PromisesOfRun<Backup>(now, []);
    } else {
      ProtocolKeepsPromises(now, steps[..|steps| - 1]);
      StepPromises(RunBackups(now, steps[..|steps| - 1]), steps[|steps| - 1]);
    }
  }

  lemma StepPromises(s: Backups, step: BackupStep)
    requires Promises(s.protocol)
    ensures Promises(ApplyBackup(s, step).protocol)
  {
    hide Promises, BeginCompleteStep, RunCompleteStep, Publishes;
    match step
    case Common(t) => StepKeepsPromises(s.protocol, t);
    case CallComplete(c) =>
      var p := PhaseOf(s.protocol, c);
      if p.Holding? && c in s.work && s.work[c].Ready? {
        StepKeepsPromises(s.protocol, BeginComplete(c, 201, BackupOf(p.claim, s.work[c].file)));
      }
    case Finish(c, end) => StepKeepsPromises(s.protocol, RunComplete(c, end.ending));
    case _ =>
  }

  // ---- what the files hold

  /** The client's lease is the row's, and the row is not completed. */
  predicate IsHolder(s: Backups, c: nat) {
    var p := PhaseOf(s.protocol, c);
    && (p.Holding? || p.Completing?) && LeaseIsCurrent(s.protocol, p.claim)
    && s.protocol.table[p.claim.key].state == InProgress
  }

  /** What a lease holder found is still so. */
  predicate WorkIsTrue(s: Backups, c: nat) {
    c in s.work && IsHolder(s, c) ==>
      var uid := PhaseOf(s.protocol, c).claim.operationUid;
      if s.work[c].Ready? && !s.work[c].staged then uid in s.files && s.files[uid] == s.work[c].file
      else uid !in s.files
  }

  /** A client's work goes with its phase, its staged file is there, and its response describes its file. */
  predicate WorkFits(s: Backups, c: nat) {
    var p := PhaseOf(s.protocol, c);
    && (c in s.work ==> p.Holding? || p.Completing? || p.Settled?)
    && (c in s.work && (p.Holding? || p.Completing?) && s.work[c].Ready? && s.work[c].staged ==>
          StagedName(p.claim) in s.staged && s.staged[StagedName(p.claim)] == s.work[c].file)
    && (p.Completing? ==>
          c in s.work && s.work[c].Ready? && p.status == 201 && p.response == BackupOf(p.claim, s.work[c].file))
  }

  /** The stored response of a completed backup describes the file at its place. */
  predicate Recorded(s: Backups, key: Key) {
    Done(s.protocol, key) ==>
      var row := s.protocol.table[key];
      && row.operationUid in s.files && row.response.Some?
      && row.response.value.backupUid == row.operationUid
      && row.response.value.digest == s.files[row.operationUid].digest
      && row.response.value.size == s.files[row.operationUid].size
  }

  /** Each destination was written exactly once. */
  ghost predicate WrittenOnce(s: Backups) {
    && (forall i, j :: 0 <= i < j < |s.writes| ==> s.writes[i] != s.writes[j])
    && (forall uid :: uid in s.writes <==> uid in s.files)
  }

  ghost predicate BackupInv(s: Backups) {
    && (forall c :: WorkIsTrue(s, c)) && (forall c :: WorkFits(s, c))
    && (forall key :: Recorded(s, key)) && WrittenOnce(s)
  }

  // ---- steps that leave the files alone

  lemma HolderBefore(s: State<Backup>, t: Step<Backup>, c: nat)
    requires Inv(s) && !t.BeginComplete? && !t.RunComplete?
    requires PhaseOf(Apply(s, t), c) == PhaseOf(s, c) && (PhaseOf(s, c).Holding? || PhaseOf(s, c).Completing?)
    requires var after := Apply(s, t); var claim := PhaseOf(s, c).claim;
             LeaseIsCurrent(after, claim) && after.table[claim.key].state == InProgress
    ensures LeaseIsCurrent(s, PhaseOf(s, c).claim) && s.table[PhaseOf(s, c).claim.key].state == InProgress
  {
    hide RowCheck, Drawn, AllCounted, GrantsDiffer;
    var after := Apply(s, t);
    if t.RunClaim? && PhaseOf(s, t.client).Reserved? {
      ClaimCases(s, t.client);
      hide RunClaimStep;
      if t.client != c { NotCurrentAfter(s, after, t.client, c); }
    }
  }

  lemma CommonKeepsWork(s: Backups, t: Step<Backup>, c: nat)
    requires Inv(s.protocol) && WorkIsTrue(s, c) && WorkFits(s, c) && !t.BeginComplete? && !t.RunComplete?
    ensures var after := s.(protocol := Apply(s.protocol, t)); WorkIsTrue(after, c) && WorkFits(after, c)
  {
    hide Inv, Apply;
    var after := s.(protocol := Apply(s.protocol, t));
    if c in s.work {
      WorkersKeepWorking(s.protocol, t, c);
      if IsHolder(after, c) { HolderBefore(s.protocol, t, c); }
    } else if PhaseOf(after.protocol, c).Completing? {
      OthersKeepPhase(s.protocol, t, c);
    }
  }

  lemma CommonKeepsBackups(s: Backups, t: Step<Backup>)
    requires Inv(s.protocol) && BackupInv(s) && !t.BeginComplete? && !t.RunComplete?
    ensures BackupInv(s.(protocol := Apply(s.protocol, t)))
  {
    hide Inv, Apply, WorkIsTrue, WorkFits;
    var after := s.(protocol := Apply(s.protocol, t));
    forall c ensures WorkIsTrue(after, c) && WorkFits(after, c) { CommonKeepsWork(s, t, c); }
    forall key ensures Recorded(after, key) {
      assert Recorded(s, key);
      if Done(after.protocol, key) { DoneBefore(s.protocol, t, key); }
    }
  }

  lemma VerifyKeepsBackups(s: Backups, c: nat)
    requires BackupInv(s)
    ensures BackupInv(VerifyStep(s, c))
  {
    var after := VerifyStep(s, c);
    forall d ensures WorkIsTrue(after, d) && WorkFits(after, d) { assert WorkIsTrue(s, d) && WorkFits(s, d); }
    forall key ensures Recorded(after, key) { assert Recorded(s, key); }
  }

  lemma NamesApart(s: Backups, c: nat, d: nat)
    requires Apart(s.protocol) && c != d && c in s.protocol.clients && d in s.protocol.clients
    requires (PhaseOf(s.protocol, d).Holding? || PhaseOf(s.protocol, d).Completing?) && PhaseOf(s.protocol, d).claim.leaseUid.Some?
    requires LeaseOfPhase(PhaseOf(s.protocol, c)).Some?
    ensures StagedName(PhaseOf(s.protocol, d).claim).1 != LeaseOfPhase(PhaseOf(s.protocol, c)).value
  {
    assert LeaseOfPhase(s.protocol.clients[c]) != LeaseOfPhase(s.protocol.clients[d]);
  }

  lemma ClaimHasLease(s: State<Backup>, c: nat)
    requires ClaimsStand(s) && (PhaseOf(s, c).Holding? || PhaseOf(s, c).Completing?)
    ensures PhaseOf(s, c).claim.leaseUid.Some? && Claimed(s, PhaseOf(s, c).claim)
  {
  }

  lemma StageKeepsBackups(s: Backups, c: nat, content: File)
    requires Inv(s.protocol) && BackupInv(s)
    ensures BackupInv(StageStep(s, c, content))
  {
    hide Inv;
    var after := StageStep(s, c, content);
    forall d ensures WorkIsTrue(after, d) && WorkFits(after, d) {
      assert WorkIsTrue(s, d) && WorkFits(s, d);
      if d != c { StageKeepsOthers(s, c, content, d); }
    }
    forall key ensures Recorded(after, key) { assert Recorded(s, key); }
  }

  lemma StageKeepsOthers(s: Backups, c: nat, content: File, d: nat)
    requires Inv(s.protocol) && WorkFits(s, d) && d != c
    ensures WorkFits(StageStep(s, c, content), d)
  {
    hide RowsChecked, Drawn, AllCounted, GrantsDiffer;
    var p, q := PhaseOf(s.protocol, c), PhaseOf(s.protocol, d);
    if p.Holding? && (q.Holding? || q.Completing?) {
      ClaimHasLease(s.protocol, c);
      ClaimHasLease(s.protocol, d);
      NamesApart(s, c, d);
    }
  }

  lemma CallKeepsBackups(s: Backups, c: nat)
    requires BackupInv(s)
    ensures BackupInv(CallCompleteStep(s, c))
  {
    var after := CallCompleteStep(s, c);
    forall d ensures WorkIsTrue(after, d) && WorkFits(after, d) { assert WorkIsTrue(s, d) && WorkFits(s, d); }
    forall key ensures Recorded(after, key) { assert Recorded(s, key); }
  }

  lemma UnlinkKeepsBackups(s: Backups, c: nat)
    requires Inv(s.protocol) && BackupInv(s)
    ensures BackupInv(UnlinkStep(s, c))
  {
    hide Inv;
    var after := UnlinkStep(s, c);
    forall d ensures WorkIsTrue(after, d) && WorkFits(after, d) {
      assert WorkIsTrue(s, d) && WorkFits(s, d);
      UnlinkKeepsOthers(s, c, d);
    }
    forall key ensures Recorded(after, key) { assert Recorded(s, key); }
  }

  lemma UnlinkKeepsOthers(s: Backups, c: nat, d: nat)
    requires Inv(s.protocol) && WorkFits(s, d)
    ensures WorkFits(UnlinkStep(s, c), d)
  {
    hide RowsChecked, Drawn, AllCounted, GrantsDiffer;
    var p, q := PhaseOf(s.protocol, c), PhaseOf(s.protocol, d);
    if p.Settled? && (q.Holding? || q.Completing?) {
      ClaimHasLease(s.protocol, d);
      NamesApart(s, c, d);
    }
  }

  // ---- the completing transaction

  /** A completing client that publishes, with what is known about its work. */
  lemma HolderAtFinish(s: Backups, c: nat)
    requires Inv(s.protocol) && WorkIsTrue(s, c) && WorkFits(s, c) && Publishes(s.protocol, c)
    ensures var p := PhaseOf(s.protocol, c);
            && IsHolder(s, c) && p.claim.key in s.protocol.table
            && s.protocol.table[p.claim.key].operationUid == p.claim.operationUid
            && c in s.work && s.work[c].Ready? && p.response == BackupOf(p.claim, s.work[c].file)
            && (HasStaged(s, c) <==> s.work[c].staged)
            && (s.work[c].staged ==> s.staged[StagedName(p.claim)] == s.work[c].file && p.claim.operationUid !in s.files)
            && (!s.work[c].staged ==> p.claim.operationUid in s.files && s.files[p.claim.operationUid] == s.work[c].file)
  {
    CompleteCases(s.protocol, c, Normal);
    hide RowsChecked, Drawn, AllCounted, GrantsDiffer, ClaimsStand, Commits, RunCompleteStep;
  }

  /** Two holders hold different rows, and so different destinations. */
  lemma HoldersApart(s: Backups, c: nat, d: nat)
    requires Inv(s.protocol) && c != d && IsHolder(s, c) && IsHolder(s, d)
    ensures PhaseOf(s.protocol, c).claim.key != PhaseOf(s.protocol, d).claim.key
    ensures PhaseOf(s.protocol, c).claim.operationUid != PhaseOf(s.protocol, d).claim.operationUid
  {
    ClaimHasLease(s.protocol, c);
    ClaimHasLease(s.protocol, d);
    hide RowsChecked, Drawn, AllCounted, GrantsDiffer;
    assert LeaseOfPhase(s.protocol.clients[c]) != LeaseOfPhase(s.protocol.clients[d]);
  }

  lemma FinishKeepsWork(s: Backups, c: nat, end: End, d: nat)
    requires Inv(s.protocol) && WorkIsTrue(s, c) && WorkFits(s, c) && WorkIsTrue(s, d) && WorkFits(s, d)
    requires PhaseOf(s.protocol, c).Completing?
    ensures WorkIsTrue(FinishStep(s, c, end), d)
  {
    CompleteCases(s.protocol, c, end.ending);
    var after := FinishStep(s, c, end);
    hide RunCompleteStep, Commits, Inv;
    if d != c && IsHolder(after, d) && MovesFile(s, c, end) {
      HolderAtFinish(s, c);
      HoldersApart(s, c, d);
      hide MovesFile, WorkFits;
    }
  }

  lemma FinishFrame(s: Backups, c: nat, end: End, d: nat)
    requires Inv(s.protocol) && PhaseOf(s.protocol, c).Completing?
    ensures var after := FinishStep(s, c, end);
            && after.work == s.work && PhaseOf(after.protocol, c).Settled?
            && (d != c ==> PhaseOf(after.protocol, d) == PhaseOf(s.protocol, d))
            && forall name <- s.staged :: name != StagedName(PhaseOf(s.protocol, c).claim) ==>
                 name in after.staged && after.staged[name] == s.staged[name]
  {
    CompleteCases(s.protocol, c, end.ending);
    hide RunCompleteStep, Commits, Publishes, Inv, MovesFile;
  }

  lemma FinishKeepsFits(s: Backups, c: nat, end: End, d: nat)
    requires Inv(s.protocol) && WorkFits(s, c) && WorkFits(s, d)
    requires PhaseOf(s.protocol, c).Completing?
    ensures WorkFits(FinishStep(s, c, end), d)
  {
    FinishFrame(s, c, end, d);
    hide FinishStep, RowsChecked, Drawn, AllCounted, GrantsDiffer;
    var q := PhaseOf(s.protocol, d);
    if d != c && (q.Holding? || q.Completing?) {
      ClaimHasLease(s.protocol, c);
      ClaimHasLease(s.protocol, d);
      NamesApart(s, c, d);
    }
  }

  lemma FinishKeepsRecorded(s: Backups, c: nat, end: End, key: Key)
    requires Inv(s.protocol) && WorkIsTrue(s, c) && WorkFits(s, c) && Recorded(s, key)
    requires PhaseOf(s.protocol, c).Completing?
    ensures Recorded(FinishStep(s, c, end), key)
  {
    CompleteCases(s.protocol, c, end.ending);
    hide RunCompleteStep, Commits;
    if Publishes(s.protocol, c) {
      HolderAtFinish(s, c);
      hide Publishes, RowsChecked, Drawn, AllCounted, GrantsDiffer, ClaimsStand, WorkIsTrue, WorkFits, MovesFile;
    }
  }

  lemma FinishWritesOnce(s: Backups, c: nat, end: End)
    requires Inv(s.protocol) && WorkIsTrue(s, c) && WorkFits(s, c) && WrittenOnce(s)
    ensures WrittenOnce(FinishStep(s, c, end))
  {
    hide RunCompleteStep, Commits, Inv;
    if MovesFile(s, c, end) {
      HolderAtFinish(s, c);
      hide Publishes, WorkIsTrue, WorkFits, MovesFile;
      var uid := PhaseOf(s.protocol, c).claim.operationUid;
      assert uid !in s.writes;
      assert forall i | 0 <= i < |s.writes| :: s.writes[i] in s.writes;
    }
  }

  lemma FinishKeepsBackups(s: Backups, c: nat, end: End)
    requires Inv(s.protocol) && BackupInv(s)
    ensures BackupInv(FinishStep(s, c, end))
  {
    hide Inv, WorkIsTrue, WorkFits, Recorded, WrittenOnce;
    if PhaseOf(s.protocol, c).Completing? {
      var after := FinishStep(s, c, end);
      forall d ensures WorkIsTrue(after, d) { FinishKeepsWork(s, c, end, d); }
      forall d ensures WorkFits(after, d) { FinishKeepsFits(s, c, end, d); }
      forall key ensures Recorded(after, key) { FinishKeepsRecorded(s, c, end, key); }
      FinishWritesOnce(s, c, end);
    } else {
      NotCompleting(s.protocol, c, end.ending);
      assert FinishStep(s, c, end) == s;
    }
  }

  // ---- runs

  lemma StepKeepsBackups(s: Backups, step: BackupStep)
    requires Inv(s.protocol) && BackupInv(s)
    ensures BackupInv(ApplyBackup(s, step))
  {
    hide Inv, BackupInv, Apply, VerifyStep, StageStep, CallCompleteStep, FinishStep, UnlinkStep;
    match step
    case Common(t) => if !t.BeginComplete? && !t.RunComplete? { CommonKeepsBackups(s, t); }
    case Verify(c) => VerifyKeepsBackups(s, c);
    case Stage(c, content) => StageKeepsBackups(s, c, content);
    case CallComplete(c) => CallKeepsBackups(s, c);
    case Finish(c, end) => FinishKeepsBackups(s, c, end);
    case Unlink(c) => UnlinkKeepsBackups(s, c);
  }

  /**
   * In every run with any crashes and takeovers: each destination file is written at most once, and
   * the response of every completed backup describes the file at its place.
   */
  lemma {:induction false} BackupsOfRun(now: int, steps: seq<BackupStep>)
    ensures BackupInv(RunBackups(now, steps))
  {
    if steps != [] {
      hide BackupInv, ApplyBackup, Inv, Timely, AllAnswered, PublishedOnce;
      var before := RunBackups(now, steps[..|steps| - 1]);
      ProtocolKeepsPromises(now, steps[..|steps| - 1]);
      BackupsOfRun(now, steps[..|steps| - 1]);
      StepKeepsBackups(before, steps[|steps| - 1]);
    }
  }

  /** A destination file changes only by the transaction of the client that holds its row's latest lease. */
  lemma OnlyTheHolderWrites(now: int, steps: seq<BackupStep>, step: BackupStep, uid: nat)
    requires var s := RunBackups(now, steps);
             Lookup(ApplyBackup(s, step).files, uid) != Lookup(s.files, uid)
    ensures step.Finish?
    ensures var s := RunBackups(now, steps); var p := PhaseOf(s.protocol, step.client);
            && p.Completing? && p.claim.operationUid == uid && p.claim.key in s.protocol.table
            && s.protocol.table[p.claim.key].state == InProgress
            && s.protocol.table[p.claim.key].leaseUid == p.claim.leaseUid
            && (var leases := GrantsOf(s.protocol.grants, p.claim.key);
                leases != [] && p.claim.leaseUid == Some(leases[|leases| - 1]))
            && uid !in s.files
  {
    var s := RunBackups(now, steps);
    ProtocolKeepsPromises(now, steps);
    BackupsOfRun(now, steps);
    hide RunBackups, Timely, AllAnswered, PublishedOnce, Recorded, WrittenOnce;
    assert step.Finish? && MovesFile(s, step.client, step.end);
    var c := step.client;
    assert WorkIsTrue(s, c) && WorkFits(s, c);
    HolderAtFinish(s, c);
    assert Counted(s.protocol, PhaseOf(s.protocol, c).claim.key);
  }
}
