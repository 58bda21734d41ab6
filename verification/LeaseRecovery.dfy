/**
 * No run of the lease protocol leaves a key stuck: once the process was restarted and the last lease
 * has run out, a new client gets the key.
 */
module LeaseRecovery {
  import opened Wrappers
  import opened Domain
  import opened Idempotency
  import opened LeaseProtocol

  /** No lease ends later than five minutes (in microseconds) from now. */
  ghost predicate InTime<R>(s: State<R>) {
    && (forall key <- s.table :: s.table[key].state == InProgress ==>
          s.table[key].leaseExpires.Some? && s.table[key].leaseExpires.value <= s.now + 300_000_000)
    && forall c <- s.clients :: s.clients[c].Reserved? ==> s.clients[c].calledAt <= s.now
  }

  lemma StepKeepsInTime<R>(s: State<R>, step: Step<R>)
    requires InTime(s)
    ensures InTime(Apply(s, step))
  {
    match step
    case RunClaim(c) => ClaimKeepsInTime(s, c);
    case RunComplete(c, ending) => CompleteKeepsInTime(s, c, ending);
    case _ =>
  }

  lemma ClaimKeepsInTime<R>(s: State<R>, c: nat)
    requires InTime(s)
    ensures InTime(RunClaimStep(s, c))
  {
  }

  lemma CompleteKeepsInTime<R>(s: State<R>, c: nat, ending: Ending)
    requires InTime(s)
    ensures InTime(RunCompleteStep(s, c, ending))
  {
    hide RowCheck;
  }

  /** The process restarts, five minutes pass, and a new client asks for the key. */
  function Restart<R>(s: State<R>, c: nat, key: Key, request: string): State<R> {
    Apply(Apply(Apply(Apply(s, Crash), Tick(300_000_000)), Begin(c, key, request)), RunClaim(c))
  }

  /** It is granted the key under a fresh lease, with the operation that the key had before. */
  ghost predicate Regained<R>(s: State<R>, t: State<R>, c: nat, key: Key, request: string) {
    var p := PhaseOf(t, c);
    && p.Holding? && p.claim.key == key && p.claim.request == request && p.claim.leaseUid == Some(s.nextUid + 1)
    && p.claim.operationUid == (if key in s.table then s.table[key].operationUid else s.nextUid)
    && key in t.table
    && (var row := t.table[key];
        && RowCheck(row) && row.state == InProgress && row.leaseUid == p.claim.leaseUid && row.request == request
        && row.operationUid == p.claim.operationUid && row.updatedAt == t.now)
  }

  lemma RestartGrants<R>(s: State<R>, c: nat, key: Key, request: string)
    requires InTime(s) && RowsChecked(s) && PhaseOf(s, c).Idle?
    requires key in s.table ==> s.table[key].request == request
    ensures var t := Restart(s, c, key, request);
            if key in s.table && s.table[key].state == Completed then
              t.table == s.table && PhaseOf(t, c) == Settled(key, request, s.nextUid + 1, s.table[key].response)
            else Regained(s, t, c, key, request)
  {
    var before := Apply(Apply(Apply(s, Crash), Tick(300_000_000)), Begin(c, key, request));
    assert PhaseOf(before, c) == Reserved(key, request, s.nextUid, s.nextUid + 1, s.now + 300_000_000);
    assert before.table == s.table;
    if key in s.table { assert RowCheck(s.table[key]); }
  }

  lemma {:induction false} LeasesInTime<R>(now: int, steps: seq<Step<R>>)
    ensures InTime(Run(now, steps))
  {
    if steps != [] {
      hide InTime, Apply;
      LeasesInTime(now, steps[..|steps| - 1]);
      StepKeepsInTime(Run(now, steps[..|steps| - 1]), steps[|steps| - 1]);
    }
  }

  lemma RunNext<R>(now: int, steps: seq<Step<R>>, step: Step<R>)
    ensures Run(now, steps + [step]) == Apply(Run(now, steps), step)
  {
    hide Apply;
    assert (steps + [step])[..|steps|] == steps;
  }

  /**
   * After any run with any crashes: once the process was restarted and five minutes have passed, a new
   * client with the key's request is granted the key, or answered from its completed row.
   */
  lemma NeverStuck<R>(now: int, steps: seq<Step<R>>, c: nat, key: Key, request: string)
    requires var s := Run(now, steps);
             PhaseOf(s, c).Idle? && (key in s.table ==> s.table[key].request == request)
    ensures var s := Run(now, steps);
            var t := Run(now, steps + [Crash] + [Tick(300_000_000)] + [Begin(c, key, request)] + [RunClaim(c)]);
            if key in s.table && s.table[key].state == Completed then
              t.table == s.table && PhaseOf(t, c) == Settled(key, request, s.nextUid + 1, s.table[key].response)
            else Regained(s, t, c, key, request)
  {
    hide Run, Apply, InTime, Regained, Drawn, Apart, ClaimsStand, AllCounted, GrantsDiffer, RowsChecked;
    InvOfRun(now, steps);
    LeasesInTime(now, steps);
    RestartGrants(Run(now, steps), c, key, request);
    RunNext(now, steps, Crash);
    RunNext(now, steps + [Crash], Tick(300_000_000));
    RunNext(now, steps + [Crash] + [Tick(300_000_000)], Begin(c, key, request));
    RunNext(now, steps + [Crash] + [Tick(300_000_000)] + [Begin(c, key, request)], RunClaim(c));
  }
}
