/** Every backup can still be finished, whatever happened before. */
module BackupRecovery {
  import opened Wrappers
  import opened Domain
  import opened Idempotency
  import opened LeaseProtocol
  import opened LeaseOutcomes
  import opened LeaseRecovery
  import opened BackupProtocol

  /** The process restarts, five minutes pass, and a new client goes through the route alone. */
  function Recovery(c: nat, key: Key, request: string, content: File): seq<BackupStep> {
    [Common(Crash), Common(Tick(300_000_000)), Common(Begin(c, key, request)), Common(RunClaim(c)), Verify(c),
     Stage(c, content), CallComplete(c), BackupStep.Finish(c, End(Normal, true))]
  }

  lemma BackupStepKeepsInTime(s: Backups, step: BackupStep)
    requires InTime(s.protocol)
    ensures InTime(ApplyBackup(s, step).protocol)
  {
    hide InTime, Apply, RunCompleteStep, BeginCompleteStep;
    match step
    case Common(t) => StepKeepsInTime(s.protocol, t);
    case CallComplete(c) => CallKeepsInTime(s, c);
    case Finish(c, end) => CompleteKeepsInTime(s.protocol, c, end.ending);
    case _ =>
  }

  lemma CallKeepsInTime(s: Backups, c: nat)
    requires InTime(s.protocol)
    ensures InTime(CallCompleteStep(s, c).protocol)
  {
  }

  lemma {:induction false} BackupsInTime(now: int, steps: seq<BackupStep>)
    ensures InTime(RunBackups(now, steps).protocol)
  {
    if steps != [] {
      hide InTime, ApplyBackup;
      BackupsInTime(now, steps[..|steps| - 1]);
      BackupStepKeepsInTime(RunBackups(now, steps[..|steps| - 1]), steps[|steps| - 1]);
    }
  }

  function Then(s: Backups, more: seq<BackupStep>): Backups {
    if more == [] then s else ApplyBackup(Then(s, more[..|more| - 1]), more[|more| - 1])
  }

  lemma {:induction false} RunThen(now: int, steps: seq<BackupStep>, more: seq<BackupStep>)
    ensures RunBackups(now, steps + more) == Then(RunBackups(now, steps), more)
  {
    hide ApplyBackup;
    if more == [] {
      assert steps + more == steps;
    } else {
      RunThen(now, steps, more[..|more| - 1]);
      assert (steps + more)[..|steps + more| - 1] == steps + more[..|more| - 1];
    }
  }

  lemma ThenOne(s: Backups, more: seq<BackupStep>, step: BackupStep)
    ensures Then(s, more + [step]) == ApplyBackup(Then(s, more), step)
  {
    hide ApplyBackup;
    assert (more + [step])[..|more|] == more;
  }

  /** The state once the client was granted the key. */
  function Reclaimed(s: Backups, c: nat, key: Key, request: string): Backups {
    s.(protocol := Restart(s.protocol, c, key, request))
  }

  lemma RecoverySteps(s: Backups, c: nat, key: Key, request: string, content: File)
    ensures Then(s, Recovery(c, key, request, content))
            == FinishStep(CallCompleteStep(StageStep(VerifyStep(Reclaimed(s, c, key, request), c), c, content), c), c,
                          End(Normal, true))
  {
    var r := Recovery(c, key, request, content);
    hide Apply, VerifyStep, StageStep, CallCompleteStep, FinishStep, Then;
    NoMore(s);
    assert r[..0] == [] && r[..8] == r;
    ThenNext(s, r, 0);
    ThenNext(s, r, 1);
    ThenNext(s, r, 2);
    ThenNext(s, r, 3);
    assert Then(s, r[..4]) == Reclaimed(s, c, key, request);
    ThenNext(s, r, 4);
    ThenNext(s, r, 5);
    ThenNext(s, r, 6);
    ThenNext(s, r, 7);
  }

  lemma ThenNext(s: Backups, r: seq<BackupStep>, i: nat)
    requires i < |r|
    ensures Then(s, r[..i + 1]) == ApplyBackup(Then(s, r[..i]), r[i])
  {
    hide Then, ApplyBackup;
    assert r[..i + 1] == r[..i] + [r[i]];
    ThenOne(s, r[..i], r[i]);
  }

  lemma NoMore(s: Backups)
    ensures Then(s, []) == s
  {
  }

  /** What the client finds or stages. */
  function FileFor(s: Backups, uid: nat, content: File): File { if uid in s.files then s.files[uid] else content }

  /** From holding the key on: the destination that is there, or the staged file moved to it, is answered. */
  lemma WorkFinishes(s: Backups, c: nat, content: File)
    requires PhaseOf(s.protocol, c).Holding? && c !in s.work
    requires var claim := PhaseOf(s.protocol, c).claim;
             && claim.leaseUid.Some? && claim.key in s.protocol.table
             && (var row := s.protocol.table[claim.key];
                 && RowCheck(row) && row.state == InProgress && row.leaseUid == claim.leaseUid
                 && row.request == claim.request && row.operationUid == claim.operationUid
                 && row.updatedAt == s.protocol.now)
    ensures var claim := PhaseOf(s.protocol, c).claim; var uid := claim.operationUid;
            var t := FinishStep(CallCompleteStep(StageStep(VerifyStep(s, c), c, content), c), c, End(Normal, true));
            var backup := BackupOf(claim, FileFor(s, uid, content));
            && t.files == s.files[uid := FileFor(s, uid, content)]
            && PhaseOf(t.protocol, c) == Settled(claim.key, claim.request, claim.leaseUid.value, Some(backup))
            && claim.key in t.protocol.table && t.protocol.table[claim.key].state == Completed
            && t.protocol.table[claim.key].response == Some(backup)
  {
    var claim := PhaseOf(s.protocol, c).claim;
    var file := FileFor(s, claim.operationUid, content);
    var staged := claim.operationUid !in s.files;
    var prepared := StageStep(VerifyStep(s, c), c, content);
    assert prepared.work[c] == Ready(file, staged) && prepared.protocol == s.protocol && prepared.files == s.files;
    assert staged ==> StagedName(claim) in prepared.staged && prepared.staged[StagedName(claim)] == file;
    hide StageStep, VerifyStep;
    var called := CallCompleteStep(prepared, c);
    assert PhaseOf(called.protocol, c) == Completing(claim, 201, BackupOf(claim, file), s.protocol.now);
    assert called.protocol.table == s.protocol.table && called.files == s.files && called.staged == prepared.staged;
    assert called.work == prepared.work;
    hide CallCompleteStep, RowCheck;
    assert Publishes(called.protocol, c) && Commits(called.protocol, c, Normal);
    hide Publishes, Commits;
    assert MovesFile(called, c, End(Normal, true)) <==> staged;
  }

  /** After any run, the backup of any key that no other request used is completed by one more attempt. */
  lemma BackupRecovers(now: int, steps: seq<BackupStep>, c: nat, key: Key, request: string, content: File)
    requires var s := RunBackups(now, steps).protocol;
             PhaseOf(s, c).Idle? && (key in s.table ==> s.table[key].request == request)
    ensures var s, t := RunBackups(now, steps), RunBackups(now, steps + Recovery(c, key, request, content));
            && key in t.protocol.table && t.protocol.table[key].state == Completed
            && t.protocol.table[key].response.Some?
            && PhaseOf(t.protocol, c).Settled? && PhaseOf(t.protocol, c).answer == t.protocol.table[key].response
            && (var b := t.protocol.table[key].response.value;
                && b.backupUid in t.files && b.digest == t.files[b.backupUid].digest
                && b.size == t.files[b.backupUid].size)
            && (forall uid <- s.files :: uid in t.files && t.files[uid] == s.files[uid])
            && (forall uid <- t.files :: uid in s.files || t.files[uid] == content)
  {
    hide Restart, Recovery, RunBackups, Then, InTime, RowsChecked, Recorded, Regained;
    RunThen(now, steps, Recovery(c, key, request, content));
    var s := RunBackups(now, steps);
    RecoverySteps(s, c, key, request, content);
    BeforeRecovery(now, steps, c, key);
    RestartGrants(s.protocol, c, key, request);
    var r := Reclaimed(s, c, key, request);
    hide FinishStep, CallCompleteStep, StageStep, VerifyStep;
    if key in s.protocol.table && s.protocol.table[key].state == Completed {
      AnsweredAgain(r, c, content);
      RecordedFile(s, key);
    } else {
      RegainedFinishes(s, c, key, request, content);
    }
  }

  lemma RegainedFinishes(s: Backups, c: nat, key: Key, request: string, content: File)
    requires c !in s.work && Regained(s.protocol, Restart(s.protocol, c, key, request), c, key, request)
    ensures var r := Reclaimed(s, c, key, request);
            var t := FinishStep(CallCompleteStep(StageStep(VerifyStep(r, c), c, content), c), c, End(Normal, true));
            var p := PhaseOf(r.protocol, c);
            && p.Holding?
            && (var uid := p.claim.operationUid; var backup := BackupOf(p.claim, FileFor(s, uid, content));
                && t.files == s.files[uid := FileFor(s, uid, content)]
                && key in t.protocol.table && t.protocol.table[key].state == Completed
                && t.protocol.table[key].response == Some(backup)
                && PhaseOf(t.protocol, c).Settled? && PhaseOf(t.protocol, c).answer == Some(backup))
  {
    hide Restart, FinishStep, CallCompleteStep, StageStep, VerifyStep, RowCheck;
    WorkFinishes(Reclaimed(s, c, key, request), c, content);
  }

  lemma RecordedFile(s: Backups, key: Key)
    requires Recorded(s, key) && key in s.protocol.table && s.protocol.table[key].state == Completed
    ensures var row := s.protocol.table[key];
            && row.response.Some? && row.response.value.backupUid in s.files
            && row.response.value.digest == s.files[row.response.value.backupUid].digest
            && row.response.value.size == s.files[row.response.value.backupUid].size
  {
    assert Done(s.protocol, key);
  }

  /** What every run leaves a new client to start from. */
  lemma BeforeRecovery(now: int, steps: seq<BackupStep>, c: nat, key: Key)
    requires PhaseOf(RunBackups(now, steps).protocol, c).Idle?
    ensures var s := RunBackups(now, steps);
            InTime(s.protocol) && RowsChecked(s.protocol) && c !in s.work && Recorded(s, key)
  {
    hide RunBackups, InTime, Recorded, RowsChecked, Drawn, Apart, ClaimsStand, AllCounted, GrantsDiffer, Timely,
         AllAnswered, PublishedOnce;
    BackupsInTime(now, steps);
    BackupsOfRun(now, steps);
    ProtocolKeepsPromises(now, steps);
    assert WorkFits(RunBackups(now, steps), c);
  }

  /** A client that was answered from the stored row has nothing more to do. */
  lemma AnsweredAgain(s: Backups, c: nat, content: File)
    requires PhaseOf(s.protocol, c).Settled?
    ensures FinishStep(CallCompleteStep(StageStep(VerifyStep(s, c), c, content), c), c, End(Normal, true)) == s
  {
  }
}
