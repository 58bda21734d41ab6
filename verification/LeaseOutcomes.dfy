/** What the lease protocol promises its callers, over every run. */
module LeaseOutcomes {
  import opened Wrappers
  import opened Domain
  import opened Idempotency
  import opened LeaseProtocol

  // ---- COMPLETED is terminal

  predicate Done<R>(s: State<R>, key: Key) { key in s.table && s.table[key].state == Completed }

  lemma CompletedForever<R>(s: State<R>, step: Step<R>, key: Key)
    requires Inv(s) && Done(s, key)
    ensures Done(Apply(s, step), key) && Apply(s, step).table[key] == s.table[key]
  {
    hide Drawn, Apart, ClaimsStand, AllCounted, GrantsDiffer;
    if step.RunClaim? && PhaseOf(s, step.client).Reserved? {
      ClaimCases(s, step.client);
    }
  }

  // ---- time

  predicate LeaseIsCurrent<R>(s: State<R>, claim: Claim<R>) {
    claim.key in s.table && s.table[claim.key].leaseUid == claim.leaseUid
  }

  /** Clients read the clock before they act, and the holder of a lease after it was granted. */
  predicate OnTime<R>(s: State<R>, p: Phase<R>) {
    && (p.Reserved? ==> p.calledAt <= s.now)
    && (p.Holding? && LeaseIsCurrent(s, p.claim) ==> s.table[p.claim.key].updatedAt <= s.now)
    && (p.Completing? ==> p.calledAt <= s.now)
    && (p.Completing? && LeaseIsCurrent(s, p.claim) ==> s.table[p.claim.key].updatedAt <= p.calledAt)
  }

  ghost predicate Timely<R>(s: State<R>) { forall c <- s.clients :: OnTime(s, s.clients[c]) }

  /** While the clock does not run back and publishing does not raise, a lease holder completes. */
  lemma HolderIsNeverRefused<R>(s: State<R>, c: nat)
    requires Timely(s) && Publishes(s, c) && SuccessStatus(PhaseOf(s, c).status)
    ensures Commits(s, c, Normal)
  {
  }

  lemma ClaimKeepsTimely<R>(s: State<R>, c: nat)
    requires Inv(s) && Timely(s) && PhaseOf(s, c).Reserved?
    ensures Timely(RunClaimStep(s, c))
  {
    ClaimCases(s, c);
    var p, after := PhaseOf(s, c), RunClaimStep(s, c);
    hide RunClaimStep, RowCheck, AllCounted, GrantsDiffer, Drawn;
    forall d | d in after.clients ensures OnTime(after, after.clients[d]) {
      if d != c {
        assert OnTime(s, s.clients[d]);
        if s.clients[d].Holding? || s.clients[d].Completing? { NotCurrentAfter(s, after, c, d); }
      }
    }
  }

  /** A granted lease makes no other client's lease current. */
  lemma NotCurrentAfter<R>(s: State<R>, after: State<R>, c: nat, d: nat)
    requires Apart(s) && ClaimsStand(s) && c in s.clients && d in s.clients && c != d
    requires s.clients[c].Reserved? && (s.clients[d].Holding? || s.clients[d].Completing?)
    requires after.table == s.table
             || (s.clients[c].key in after.table && after.table[s.clients[c].key].leaseUid == Some(s.clients[c].leaseUid)
                 && forall k <- after.table :: k != s.clients[c].key ==> k in s.table && after.table[k] == s.table[k])
    ensures LeaseIsCurrent(after, s.clients[d].claim) ==>
              LeaseIsCurrent(s, s.clients[d].claim) && after.table[s.clients[d].claim.key] == s.table[s.clients[d].claim.key]
  {
    assert LeaseOfPhase(s.clients[c]) != LeaseOfPhase(s.clients[d]);
  }

  /** What the transaction of a completing client did. */
  lemma CompleteCases<R>(s: State<R>, c: nat, ending: Ending)
    requires RowsChecked(s) && ClaimsStand(s) && PhaseOf(s, c).Completing?
    ensures var p, after := PhaseOf(s, c), RunCompleteStep(s, c, ending);
            var key, lease := p.claim.key, p.claim.leaseUid;
            && key in s.table && lease.Some? && DecisionOf(s, c).Some?
            && s.table[key].request == p.claim.request && s.table[key].operationUid == p.claim.operationUid
            && Grant(key, lease.value) in s.grants
            && (Publishes(s, c) <==> s.table[key].state == InProgress && s.table[key].leaseUid == lease)
            && (Commits(s, c, ending) ==> Publishes(s, c))
            && after.now == s.now && after.grants == s.grants
            && after.table == (if Commits(s, c, ending) then
                                 s.table[key := CompletedRow(s.table[key], p.status, p.response, p.calledAt)]
                               else s.table)
            && after.publications == (if Publishes(s, c) then
                                        s.publications + [Publication(key, lease.value, Commits(s, c, ending))]
                                      else s.publications)
            && exists answer: Option<R> ::
                 && after.clients == s.clients[c := Settled(key, p.claim.request, lease.value, answer)]
                 && (answer.Some? ==> Done(after, key) && after.table[key].response == answer)
  {
    var p := PhaseOf(s, c);
    assert Claimed(s, p.claim);
    var after := RunCompleteStep(s, c, ending);
    var answer := after.clients[c].answer;
    assert after.clients == s.clients[c := Settled(p.claim.key, p.claim.request, p.claim.leaseUid.value, answer)];
  }

  lemma CompleteKeepsTimely<R>(s: State<R>, c: nat, ending: Ending)
    requires Inv(s) && Timely(s) && PhaseOf(s, c).Completing?
    ensures Timely(RunCompleteStep(s, c, ending))
  {
    CompleteCases(s, c, ending);
    var p, after := PhaseOf(s, c), RunCompleteStep(s, c, ending);
    hide RunCompleteStep, RowCheck, AllCounted, GrantsDiffer, Drawn, Commits, Publishes;
    assert p.calledAt <= s.now by { assert OnTime(s, s.clients[c]); }
    forall d | d in after.clients ensures OnTime(after, after.clients[d]) {
      if d != c {
        assert OnTime(s, s.clients[d]);
        assert LeaseOfPhase(s.clients[c]) == p.claim.leaseUid;
      }
    }
  }

  lemma QuietKeepsTimely<R>(s: State<R>, step: Step<R>)
    requires Timely(s) && !step.RunClaim? && !step.RunComplete?
    ensures Timely(Apply(s, step))
  {
    var after := Apply(s, step);
    forall d | d in after.clients ensures OnTime(after, after.clients[d]) {
      assert d in s.clients ==> OnTime(s, s.clients[d]);
    }
  }

  lemma StepKeepsTimely<R>(s: State<R>, step: Step<R>)
    requires Inv(s) && Timely(s)
    ensures Timely(Apply(s, step))
  {
    hide Inv, Timely, RunClaimStep, RunCompleteStep;
    match step
    case RunClaim(c) =>
      if PhaseOf(s, c).Reserved? { ClaimKeepsTimely(s, c); } else { NotReserved(s, c); }
    case RunComplete(c, ending) =>
      if PhaseOf(s, c).Completing? { CompleteKeepsTimely(s, c, ending); } else { NotCompleting(s, c, ending); }
    case _ => QuietKeepsTimely(s, step);
  }

  lemma NotCompleting<R>(s: State<R>, c: nat, ending: Ending)
    requires !PhaseOf(s, c).Completing?
    ensures RunCompleteStep(s, c, ending) == s
  {
  }

  // ---- publications

  function PublicationsOf(publications: seq<Publication>, key: Key): seq<Publication> {
    if publications == [] then []
    else
      var last := publications[|publications| - 1];
      PublicationsOf(publications[..|publications| - 1], key) + (if last.key == key then [last] else [])
  }

  /** Only the last publication may have been committed, and it was exactly if the key is done. */
  ghost predicate Once(own: seq<Publication>, done: bool) {
    && (done ==> own != [])
    && forall i :: 0 <= i < |own| ==> (own[i].committed <==> done && i == |own| - 1)
  }

  ghost predicate PublishedOnce<R>(s: State<R>, key: Key) { Once(PublicationsOf(s.publications, key), Done(s, key)) }

  lemma OnceGrows(own: seq<Publication>, p: Publication)
    requires Once(own, false)
    ensures Once(own + [p], p.committed)
  {
  }

  lemma PublicationsOfSnoc(publications: seq<Publication>, p: Publication, key: Key)
    ensures PublicationsOf(publications + [p], key)
            == PublicationsOf(publications, key) + (if p.key == key then [p] else [])
  {
    assert (publications + [p])[..|publications|] == publications;
  }

  lemma ClaimKeepsPublications<R>(s: State<R>, c: nat, key: Key)
    requires RowsChecked(s) && PublishedOnce(s, key) && PhaseOf(s, c).Reserved?
    ensures PublishedOnce(RunClaimStep(s, c), key)
  {
    ClaimCases(s, c);
    hide RunClaimStep, PublicationsOf, RowsChecked, RowCheck;
  }

  lemma CompleteKeepsPublications<R>(s: State<R>, c: nat, ending: Ending, key: Key)
    requires RowsChecked(s) && ClaimsStand(s) && PublishedOnce(s, key) && PhaseOf(s, c).Completing?
    ensures PublishedOnce(RunCompleteStep(s, c, ending), key)
  {
    CompleteCases(s, c, ending);
    var p, after := PhaseOf(s, c), RunCompleteStep(s, c, ending);
    var lease := p.claim.leaseUid.value;
    var publication := Publication(p.claim.key, lease, Commits(s, c, ending));
    PublicationsOfSnoc(s.publications, publication, key);
    hide RunCompleteStep, PublicationsOf, RowsChecked, RowCheck, ClaimsStand, Commits, Publishes, Once;
    if key == p.claim.key && Publishes(s, c) {
      OnceGrows(PublicationsOf(s.publications, key), publication);
      assert Done(after, key) <==> Commits(s, c, ending);
    } else {
      assert PublicationsOf(s.publications, key) + [] == PublicationsOf(s.publications, key);
      assert Done(after, key) <==> Done(s, key);
    }
  }

  lemma StepKeepsPublications<R>(s: State<R>, step: Step<R>, key: Key)
    requires Inv(s) && PublishedOnce(s, key)
    ensures PublishedOnce(Apply(s, step), key)
  {
    hide PublicationsOf, RunClaimStep, RunCompleteStep, RowsChecked, ClaimsStand, Drawn, Apart, AllCounted,
         GrantsDiffer;
    match step
    case RunClaim(c) =>
      if PhaseOf(s, c).Reserved? { ClaimKeepsPublications(s, c, key); } else { NotReserved(s, c); }
    case RunComplete(c, ending) =>
      if PhaseOf(s, c).Completing? { CompleteKeepsPublications(s, c, ending, key); } else { NotCompleting(s, c, ending); }
    case _ =>
  }

  // ---- answers

  /** A caller that was answered got what is stored under its key, for its own request. */
  ghost predicate Answered<R>(s: State<R>, p: Phase<R>) {
    p.Settled? && p.answer.Some? ==>
      Done(s, p.key) && s.table[p.key].request == p.request && s.table[p.key].response == p.answer
  }

  ghost predicate AllAnswered<R>(s: State<R>) { forall c <- s.clients :: Answered(s, s.clients[c]) }

  lemma AnsweredForever<R>(s: State<R>, step: Step<R>, p: Phase<R>)
    requires Inv(s) && Answered(s, p)
    ensures Answered(Apply(s, step), p)
  {
    hide Inv, Apply;
    if p.Settled? && p.answer.Some? { CompletedForever(s, step, p.key); }
  }

  /** The client that acted is answered rightly, if it is answered at all. */
  lemma NewAnswer<R>(s: State<R>, step: Step<R>, c: nat)
    requires Inv(s) && AllAnswered(s) && c in Apply(s, step).clients
    requires c in s.clients ==> Apply(s, step).clients[c] != s.clients[c]
    ensures Answered(Apply(s, step), Apply(s, step).clients[c])
  {
    hide Drawn, Apart, AllCounted, GrantsDiffer, RowCheck;
    match step
    case RunClaim(d) =>
      if PhaseOf(s, d).Reserved? {
        ClaimCases(s, d);
        hide RunClaimStep;
      }
    case RunComplete(d, ending) =>
      if PhaseOf(s, d).Completing? {
        CompleteCases(s, d, ending);
        hide RunCompleteStep, Commits, Publishes;
      }
    case _ =>
  }

  lemma StepKeepsAnswers<R>(s: State<R>, step: Step<R>)
    requires Inv(s) && AllAnswered(s)
    ensures AllAnswered(Apply(s, step))
  {
    hide Inv, Apply, Answered;
    var after := Apply(s, step);
    forall c | c in after.clients ensures Answered(after, after.clients[c]) {
      if c in s.clients && after.clients[c] == s.clients[c] {
        AnsweredForever(s, step, s.clients[c]);
      } else {
        NewAnswer(s, step, c);
      }
    }
  }

  // ---- what an application on top may rely on

  /** A client that works keeps its phase when another one acts. */
  lemma OthersKeepPhase<R>(s: State<R>, t: Step<R>, c: nat)
    requires Inv(s) && !t.BeginComplete? && !t.RunComplete?
    requires var q := PhaseOf(Apply(s, t), c); q.Completing? || (q.Holding? && PhaseOf(s, c).Holding?)
    ensures PhaseOf(Apply(s, t), c) == PhaseOf(s, c)
  {
    hide RowCheck, Drawn, Apart, ClaimsStand, AllCounted, GrantsDiffer;
    if t.RunClaim? && PhaseOf(s, t.client).Reserved? {
      ClaimCases(s, t.client);
      hide RunClaimStep;
    }
  }

  lemma DoneBefore<R>(s: State<R>, t: Step<R>, key: Key)
    requires Inv(s) && !t.RunComplete? && Done(Apply(s, t), key)
    ensures Done(s, key) && Apply(s, t).table[key] == s.table[key]
  {
    hide RowCheck, Drawn, Apart, ClaimsStand, AllCounted, GrantsDiffer;
    if t.RunClaim? && PhaseOf(s, t.client).Reserved? {
      ClaimCases(s, t.client);
      hide RunClaimStep;
    }
  }

  lemma WorkersKeepWorking<R>(s: State<R>, t: Step<R>, c: nat)
    requires Inv(s) && !t.BeginComplete? && !t.RunComplete?
    requires var p := PhaseOf(s, c); p.Holding? || p.Completing? || p.Settled?
    ensures var p, q := PhaseOf(s, c), PhaseOf(Apply(s, t), c);
            q == p || (p.Holding? && q.Settled? && t == GiveUp(c))
  {
    hide RowCheck, Drawn, Apart, ClaimsStand, AllCounted, GrantsDiffer;
    if t.RunClaim? && PhaseOf(s, t.client).Reserved? {
      ClaimCases(s, t.client);
      hide RunClaimStep;
    }
  }

  // ---- runs

  ghost predicate Promises<R>(s: State<R>) {
    && Inv(s) && Timely(s) && AllAnswered(s)
    && forall key :: PublishedOnce(s, key)
  }

  lemma StepKeepsPromises<R>(s: State<R>, step: Step<R>)
    requires Promises(s)
    ensures Promises(Apply(s, step))
  {
    hide Inv, Apply, Timely, AllAnswered, PublishedOnce;
    StepKeepsInv(s, step);
    StepKeepsTimely(s, step);
    StepKeepsAnswers(s, step);
    forall key ensures PublishedOnce(Apply(s, step), key) { StepKeepsPublications(s, step, key); }
  }

  /**
   * In every run, whatever expires or crashes: attempts count distinct leases and the row names the
   * latest, a key is published in at most one committed transaction, and every answered caller of a
   * key has the one stored response.
   */
  lemma {:induction false} PromisesOfRun<R>(now: int, steps: seq<Step<R>>)
    ensures Promises(Run(now, steps))
  {
    if steps != [] {
      hide Promises, Apply;
      PromisesOfRun(now, steps[..|steps| - 1]);
      StepKeepsPromises(Run(now, steps[..|steps| - 1]), steps[|steps| - 1]);
    }
  }

  /** The attempts of a row are its granted leases, all different, the last of them being the row's. */
  lemma AttemptsAreLeases<R>(now: int, steps: seq<Step<R>>, key: Key)
    requires key in Run(now, steps).table
    ensures var s := Run(now, steps); var leases := GrantsOf(s.grants, key);
            && s.table[key].attempts == |leases| > 0 && s.table[key].leaseUid == Some(leases[|leases| - 1])
            && forall i, j :: 0 <= i < j < |s.grants| ==> s.grants[i].leaseUid != s.grants[j].leaseUid
  {
    hide Run, GrantsOf;
    InvOfRun<R>(now, steps);
    assert Counted(Run(now, steps), key);
  }

  /** Two callers answered under one key were answered alike. */
  lemma AnswersAgree<R>(now: int, steps: seq<Step<R>>, c: nat, d: nat)
    requires var s := Run(now, steps);
             && c in s.clients && d in s.clients && s.clients[c].Settled? && s.clients[d].Settled?
             && s.clients[c].key == s.clients[d].key && s.clients[c].answer.Some? && s.clients[d].answer.Some?
    ensures Run(now, steps).clients[c].answer == Run(now, steps).clients[d].answer
  {
    hide Run, Inv, Timely, PublishedOnce;
    PromisesOfRun(now, steps);
    assert Answered(Run(now, steps), Run(now, steps).clients[c]) && Answered(Run(now, steps), Run(now, steps).clients[d]);
  }

  /** Once a key was granted again, the earlier attempts can neither publish nor complete. */
  lemma SupersededIsPowerless<R>(now: int, steps: seq<Step<R>>, c: nat, i: nat, j: nat)
    requires var s := Run(now, steps);
             && i < j < |s.grants| && s.grants[i].key == s.grants[j].key
             && LeaseOfPhase(PhaseOf(s, c)) == Some(s.grants[i].leaseUid)
    ensures !Publishes(Run(now, steps), c)
  {
    hide Run;
    InvOfRun<R>(now, steps);
    var s := Run(now, steps);
    var p := PhaseOf(s, c);
    LatestGrant(s.grants, i, j);
    hide Drawn, Apart, GrantsDiffer, RowCheck, GrantsOf;
    if Publishes(s, c) {
      assert Claimed(s, p.claim) && Counted(s, p.claim.key);
      OneGrantPerLease(s, p.claim.key, i);
    }
  }

  /** The latest lease granted on a key is not one that was granted before another. */
  lemma {:induction false} LatestGrant(grants: seq<Grant>, i: nat, j: nat)
    requires forall k, l :: 0 <= k < l < |grants| ==> grants[k].leaseUid != grants[l].leaseUid
    requires i < j < |grants| && grants[i].key == grants[j].key
    ensures var leases := GrantsOf(grants, grants[i].key);
            leases != [] && leases[|leases| - 1] != grants[i].leaseUid
  {
    if j < |grants| - 1 && grants[|grants| - 1].key != grants[i].key {
      LatestGrant(grants[..|grants| - 1], i, j);
    }
  }

  lemma OneGrantPerLease<R>(s: State<R>, key: Key, i: nat)
    requires GrantsDiffer(s) && i < |s.grants| && Grant(key, s.grants[i].leaseUid) in s.grants
    ensures s.grants[i].key == key
  {
    var j :| 0 <= j < |s.grants| && s.grants[j] == Grant(key, s.grants[i].leaseUid);
  }

  /** A late release leaves every reservation of another client in place. */
  lemma LateReleaseIsHarmless<R>(now: int, steps: seq<Step<R>>, c: nat, d: nat, key: Key)
    requires var s := Run(now, steps);
             && c != d && c in s.clients && d in s.clients && key in s.active
             && LeaseOfPhase(s.clients[d]) == Some(s.active[key])
    ensures Lookup(Apply(Run(now, steps), Release(c)).active, key) == Lookup(Run(now, steps).active, key)
  {
    hide Run;
    InvOfRun<R>(now, steps);
    hide Drawn, ClaimsStand, AllCounted, GrantsDiffer, RowsChecked;
  }
}
