/**
 * Clients, leases and crashes interleaved. A step is one command of the writer queue, one access to
 * the reservations in memory, or an event of the environment; a crash forgets the reservations in
 * memory while clients that were under way may still go on.
 */
module LeaseProtocol {
  import opened Wrappers
  import opened Domain
  import opened Idempotency

  datatype Phase<R> =
    | Idle
    | Refused
    | Reserved(key: Key, request: string, operationUid: nat, leaseUid: nat, calledAt: int)
    | Holding(claim: Claim<R>)
    | Completing(claim: Claim<R>, status: int, response: R, calledAt: int)
    | Settled(key: Key, request: string, leaseUid: nat, answer: Option<R>)

  datatype Grant = Grant(key: Key, leaseUid: nat)

  /** The transaction of a completing client reached the point where it publishes. */
  datatype Publication = Publication(key: Key, leaseUid: nat, committed: bool)

  datatype State<R> = State(
    table: map<Key, Row<R>>, active: map<Key, nat>, clients: map<nat, Phase<R>>, now: int, nextUid: nat,
    grants: seq<Grant>, publications: seq<Publication>)

  /** How a completing transaction ends: it may commit, something in it raises, or the process dies in it. */
  datatype Ending = Normal | Raises | Dies

  datatype Step<R> =
    | Begin(client: nat, key: Key, request: string)
    | RunClaim(client: nat)
    | BeginComplete(client: nat, status: int, response: R)
    | RunComplete(client: nat, ending: Ending)
    | GiveUp(client: nat)
    | Release(client: nat)
    | Crash
    | Tick(elapsed: nat)

  function Start<R>(now: int): State<R> { State(map[], map[], map[], now, 0, [], []) }

  function PhaseOf<R>(s: State<R>, c: nat): Phase<R> { if c in s.clients then s.clients[c] else Idle }

  /** Draws the two identifiers and reserves the key in memory. */
  function BeginStep<R>(s: State<R>, c: nat, key: Key, request: string): State<R> {
    if !PhaseOf(s, c).Idle? then s
    else
      var drawn := s.(nextUid := s.nextUid + 2);
      if key in s.active then drawn.(clients := s.clients[c := Refused])
      else drawn.(active := s.active[key := s.nextUid + 1],
                  clients := s.clients[c := Reserved(key, request, s.nextUid, s.nextUid + 1, s.now)])
  }

  function Granted<R>(answer: Result<Claim<R>, ClaimError>): bool { answer.Ok? && answer.value.response.None? }

  function AfterClaim<R>(p: Phase<R>, answer: Result<Claim<R>, ClaimError>): Phase<R>
    requires p.Reserved?
  {
    if Granted(answer) then Holding(answer.value)
    else Settled(p.key, p.request, p.leaseUid, if answer.Ok? then answer.value.response else None)
  }

  /** A granted claim holds the row's lease; any other leaves the row, and is answered from a completed one. */
  lemma ClaimFacts<R>(key: Key, found: Option<Row<R>>, request: string, operationUid: nat, leaseUid: nat, now: int)
    requires found.Some? ==> RowCheck(found.value)
    ensures var answer := ClaimAnswer(key, found, request, operationUid, leaseUid, now);
            var row := ClaimedRow(found, request, operationUid, leaseUid, now);
            && row.Some? && (Granted(answer) || row == found)
            && (Granted(answer) ==>
                  && answer.value.key == key && answer.value.request == request && answer.value.leaseUid == Some(leaseUid)
                  && row.value.state == InProgress && row.value.leaseUid == Some(leaseUid) && row.value.request == request
                  && row.value.operationUid == answer.value.operationUid
                  && (found.Some? ==> found.value.state == InProgress))
            && (answer.Ok? && !Granted(answer) ==>
                  && found.value.state == Completed && found.value.request == request
                  && answer.value.response == found.value.response)
            && (found.Some? && found.value.state == Completed && found.value.request == request ==>
                  answer.Ok? && !Granted(answer))
  {
  }

  function RunClaimStep<R>(s: State<R>, c: nat): State<R> {
    var p := PhaseOf(s, c);
    if !p.Reserved? then s
    else
      var found := Lookup(s.table, p.key);
      var answer := ClaimAnswer(p.key, found, p.request, p.operationUid, p.leaseUid, p.calledAt);
      var row := ClaimedRow(found, p.request, p.operationUid, p.leaseUid, p.calledAt);
      s.(table := if row.Some? then s.table[p.key := row.value] else s.table,
         clients := s.clients[c := AfterClaim(p, answer)],
         grants := s.grants + if Granted(answer) then [Grant(p.key, p.leaseUid)] else [])
  }

  function BeginCompleteStep<R>(s: State<R>, c: nat, status: int, response: R): State<R> {
    var p := PhaseOf(s, c);
    if !p.Holding? then s else s.(clients := s.clients[c := Completing(p.claim, status, response, s.now)])
  }

  /** What the completing client's transaction finds; None when there is no row. */
  function DecisionOf<R>(s: State<R>, c: nat): Option<CompleteAnswer<R>> {
    var p := PhaseOf(s, c);
    if p.Completing? && p.claim.key in s.table && RowCheck(s.table[p.claim.key]) then
      Some(CompleteDecision(s.table[p.claim.key], p.claim))
    else None
  }

  /**
   * The transaction publishes; it commits unless publishing raises, the process dies or the table
   * refuses the update.
   */
  predicate Publishes<R>(s: State<R>, c: nat) { DecisionOf(s, c) == Some(Publishing) }

  predicate Commits<R>(s: State<R>, c: nat, ending: Ending) {
    var p := PhaseOf(s, c);
    Publishes(s, c) && ending.Normal? && s.table[p.claim.key].updatedAt <= p.calledAt && SuccessStatus(p.status)
  }

  function LeaseOf<R>(claim: Claim<R>): nat { if claim.leaseUid.Some? then claim.leaseUid.value else 0 }

  function RunCompleteStep<R>(s: State<R>, c: nat, ending: Ending): State<R> {
    var p, decision := PhaseOf(s, c), DecisionOf(s, c);
    if decision.None? then s
    else
      var answer :=
        if decision.value.Stored? then Some(decision.value.response)
        else if Commits(s, c, ending) then Some(p.response) else None;
      s.(table := if Commits(s, c, ending) then
                    s.table[p.claim.key := CompletedRow(s.table[p.claim.key], p.status, p.response, p.calledAt)]
                  else s.table,
         active := if Publishes(s, c) && ending.Dies? then map[] else s.active,
         clients := s.clients[c := Settled(p.claim.key, p.claim.request, LeaseOf(p.claim), answer)],
         publications := s.publications
           + if Publishes(s, c) then [Publication(p.claim.key, LeaseOf(p.claim), Commits(s, c, ending))] else [])
  }

  function GiveUpStep<R>(s: State<R>, c: nat): State<R> {
    var p := PhaseOf(s, c);
    if !p.Holding? then s
    else s.(clients := s.clients[c := Settled(p.claim.key, p.claim.request, LeaseOf(p.claim), None)])
  }

  /** Removes the reservation in memory if it is still this client's own. */
  function ReleaseStep<R>(s: State<R>, c: nat): State<R> {
    var p := PhaseOf(s, c);
    if p.Settled? && Lookup(s.active, p.key) == Some(p.leaseUid) then s.(active := s.active - {p.key}) else s
  }

  function Apply<R>(s: State<R>, step: Step<R>): State<R> {
    match step
    case Begin(c, key, request) => BeginStep(s, c, key, request)
    case RunClaim(c) => RunClaimStep(s, c)
    case BeginComplete(c, status, response) => BeginCompleteStep(s, c, status, response)
    case RunComplete(c, ending) => RunCompleteStep(s, c, ending)
    case GiveUp(c) => GiveUpStep(s, c)
    case Release(c) => ReleaseStep(s, c)
    case Crash => s.(active := map[])
    case Tick(elapsed) => s.(now := s.now + elapsed)
  }

  function Run<R>(now: int, steps: seq<Step<R>>): State<R> {
    if steps == [] then Start(now) else Apply(Run(now, steps[..|steps| - 1]), steps[|steps| - 1])
  }

  // ---- identifiers

  function LeaseOfPhase<R>(p: Phase<R>): Option<nat> {
    match p
    case Reserved(_, _, _, leaseUid, _) => Some(leaseUid)
    case Holding(claim) => claim.leaseUid
    case Completing(claim, _, _, _) => claim.leaseUid
    case Settled(_, _, leaseUid, _) => Some(leaseUid)
    case _ => None
  }

  /** Every identifier in use is below the next one. */
  ghost predicate Drawn<R>(s: State<R>) {
    && (forall c <- s.clients :: LeaseOfPhase(s.clients[c]).Some? ==> LeaseOfPhase(s.clients[c]).value < s.nextUid)
    && (forall c <- s.clients :: s.clients[c].Reserved? ==> s.clients[c].operationUid < s.nextUid)
    && (forall key <- s.table :: s.table[key].operationUid < s.nextUid)
    && (forall g <- s.grants :: g.leaseUid < s.nextUid)
  }

  /** No two clients hold the same lease identifier, and no two operations the same identifier. */
  ghost predicate Apart<R>(s: State<R>) {
    && (forall c, d | c in s.clients && d in s.clients && c != d ::
          LeaseOfPhase(s.clients[c]).None? || LeaseOfPhase(s.clients[c]) != LeaseOfPhase(s.clients[d]))
    && (forall c, d | c in s.clients && d in s.clients && c != d && s.clients[c].Reserved? && s.clients[d].Reserved? ::
          s.clients[c].operationUid != s.clients[d].operationUid)
    && (forall c, key | c in s.clients && key in s.table && s.clients[c].Reserved? ::
          s.clients[c].operationUid != s.table[key].operationUid)
    && (forall k, l | k in s.table && l in s.table && k != l :: s.table[k].operationUid != s.table[l].operationUid)
  }

  /** A client that works on a claim holds a lease on the row it claimed. */
  ghost predicate Claimed<R>(s: State<R>, claim: Claim<R>) {
    && claim.leaseUid.Some? && claim.key in s.table
    && s.table[claim.key].request == claim.request && s.table[claim.key].operationUid == claim.operationUid
    && Grant(claim.key, claim.leaseUid.value) in s.grants
  }

  ghost predicate ClaimsStand<R>(s: State<R>) {
    forall c <- s.clients ::
      && (s.clients[c].Holding? ==> Claimed(s, s.clients[c].claim))
      && (s.clients[c].Completing? ==> Claimed(s, s.clients[c].claim))
  }

  ghost predicate RowsChecked<R>(s: State<R>) { forall key <- s.table :: RowCheck(s.table[key]) }

  // ---- grants

  function GrantsOf(grants: seq<Grant>, key: Key): seq<nat> {
    if grants == [] then []
    else
      var last := grants[|grants| - 1];
      GrantsOf(grants[..|grants| - 1], key) + (if last.key == key then [last.leaseUid] else [])
  }

  /** The attempts of a row are its grants, and its lease is the latest of them. */
  ghost predicate Counted<R>(s: State<R>, key: Key) {
    var leases := GrantsOf(s.grants, key);
    if key !in s.table then leases == []
    else leases != [] && s.table[key].attempts == |leases| && s.table[key].leaseUid == Some(leases[|leases| - 1])
  }

  ghost predicate AllCounted<R>(s: State<R>) { forall key :: Counted(s, key) }

  ghost predicate GrantsDiffer<R>(s: State<R>) {
    && (forall i, j :: 0 <= i < j < |s.grants| ==> s.grants[i].leaseUid != s.grants[j].leaseUid)
    && (forall c, g | c in s.clients && g in s.grants && s.clients[c].Reserved? ::
          s.clients[c].leaseUid != g.leaseUid)
  }

  ghost predicate Inv<R>(s: State<R>) {
    RowsChecked(s) && Drawn(s) && Apart(s) && ClaimsStand(s) && AllCounted(s) && GrantsDiffer(s)
  }

  lemma GrantsOfSnoc(grants: seq<Grant>, g: Grant, key: Key)
    ensures GrantsOf(grants + [g], key) == GrantsOf(grants, key) + (if g.key == key then [g.leaseUid] else [])
  {
    assert (grants + [g])[..|grants|] == grants;
  }

  lemma {:induction false} GrantsOfMembers(grants: seq<Grant>, key: Key)
    ensures forall u :: u in GrantsOf(grants, key) <==> Grant(key, u) in grants
  {
    if grants != [] {
      GrantsOfMembers(grants[..|grants| - 1], key);
      assert grants == grants[..|grants| - 1] + [grants[|grants| - 1]];
    }
  }

  // ---- the claim command

  /** The claim of a reserved client, spelled out. */
  lemma ClaimCases<R>(s: State<R>, c: nat)
    requires RowsChecked(s) && PhaseOf(s, c).Reserved?
    ensures var p, after := PhaseOf(s, c), RunClaimStep(s, c);
            var q := after.clients[c];
            && p.key in after.table && after.clients == s.clients[c := q]
            && after.now == s.now && after.nextUid == s.nextUid && after.active == s.active
            && after.publications == s.publications
            && (forall key <- s.table :: key in after.table && (key != p.key ==> after.table[key] == s.table[key]))
            && (forall key <- after.table :: key != p.key ==> key in s.table)
            && (q.Holding? ==>
                  && after.grants == s.grants + [Grant(p.key, p.leaseUid)]
                  && q.claim.key == p.key && q.claim.request == p.request && q.claim.leaseUid == Some(p.leaseUid)
                  && q.claim.operationUid == after.table[p.key].operationUid
                  && after.table[p.key].request == p.request && after.table[p.key].leaseUid == Some(p.leaseUid)
                  && after.table[p.key].state == InProgress && after.table[p.key].updatedAt == p.calledAt
                  && if p.key in s.table then
                       && s.table[p.key].state == InProgress && !LeaseRuns(s.table[p.key], p.calledAt)
                       && after.table[p.key] == TakenOver(s.table[p.key], p.leaseUid, p.calledAt)
                     else after.table[p.key] == FirstRow(p.request, p.operationUid, p.leaseUid, p.calledAt))
            && (!q.Holding? ==>
                  && q.Settled? && q.key == p.key && q.leaseUid == p.leaseUid
                  && after.grants == s.grants && after.table == s.table
                  && q.request == p.request
                  && (q.answer.Some? ==>
                        && s.table[p.key].state == Completed && s.table[p.key].response == q.answer
                        && s.table[p.key].request == q.request))
  {
  }

  lemma ClaimKeepsChecked<R>(s: State<R>, c: nat)
    requires RowsChecked(s) && PhaseOf(s, c).Reserved?
    ensures RowsChecked(RunClaimStep(s, c))
  {
    ClaimCases(s, c);
    hide RunClaimStep;
    var p, after := PhaseOf(s, c), RunClaimStep(s, c);
    forall key | key in after.table ensures RowCheck(after.table[key]) {
      if key != p.key { assert key in s.table; }
    }
  }

  lemma ClaimKeepsDrawn<R>(s: State<R>, c: nat)
    requires RowsChecked(s) && Drawn(s) && PhaseOf(s, c).Reserved?
    ensures Drawn(RunClaimStep(s, c))
  {
    ClaimCases(s, c);
    hide RunClaimStep, RowCheck, RowsChecked;
  }

  lemma ClaimKeepsApart<R>(s: State<R>, c: nat)
    requires RowsChecked(s) && Apart(s) && PhaseOf(s, c).Reserved?
    ensures Apart(RunClaimStep(s, c))
  {
    ClaimCases(s, c);
    hide RunClaimStep, RowCheck, RowsChecked;
  }

  lemma ClaimKeepsClaims<R>(s: State<R>, c: nat)
    requires RowsChecked(s) && ClaimsStand(s) && PhaseOf(s, c).Reserved?
    ensures ClaimsStand(RunClaimStep(s, c))
  {
    ClaimCases(s, c);
    hide RunClaimStep, RowCheck, RowsChecked;
  }

  lemma ClaimKeepsCounted<R>(s: State<R>, c: nat, key: Key)
    requires RowsChecked(s) && Counted(s, key) && PhaseOf(s, c).Reserved?
    ensures Counted(RunClaimStep(s, c), key)
  {
    ClaimCases(s, c);
    var p := PhaseOf(s, c);
    GrantsOfSnoc(s.grants, Grant(p.key, p.leaseUid), key);
    hide RunClaimStep, RowCheck, RowsChecked, GrantsOf;
  }

  lemma ClaimKeepsGrantsDiffer<R>(s: State<R>, c: nat)
    requires RowsChecked(s) && Apart(s) && GrantsDiffer(s) && PhaseOf(s, c).Reserved?
    ensures GrantsDiffer(RunClaimStep(s, c))
  {
    ClaimCases(s, c);
    hide RunClaimStep, RowCheck, RowsChecked;
    var p, after := PhaseOf(s, c), RunClaimStep(s, c);
    forall d, g | d in after.clients && g in after.grants && after.clients[d].Reserved?
      ensures after.clients[d].leaseUid != g.leaseUid
    {
      assert d != c;
      assert s.clients[d] == after.clients[d] && LeaseOfPhase(s.clients[d]) != LeaseOfPhase(s.clients[c]);
      assert g in s.grants || g == Grant(p.key, p.leaseUid);
    }
    assert forall i | 0 <= i < |s.grants| :: s.grants[i] in s.grants;
  }

  // ---- the other commands

  predicate SameReservation<R>(x: Row<R>, y: Row<R>) {
    x.request == y.request && x.operationUid == y.operationUid && x.leaseUid == y.leaseUid && x.attempts == y.attempts
  }

  ghost predicate SameWork<R>(p: Phase<R>, q: Phase<R>) {
    && LeaseOfPhase(p) == LeaseOfPhase(q)
    && (q.Reserved? ==> p == q)
    && (q.Holding? ==> p == q)
    && (q.Completing? ==> (p.Holding? || p.Completing?) && p.claim == q.claim)
  }

  /** No reservation is made or changed; clients only move on. */
  ghost predicate Calm<R>(s: State<R>, after: State<R>) {
    && after.grants == s.grants && after.nextUid == s.nextUid
    && after.table.Keys == s.table.Keys && after.clients.Keys == s.clients.Keys
    && (forall key <- s.table :: SameReservation(s.table[key], after.table[key]))
    && (forall c <- s.clients :: SameWork(s.clients[c], after.clients[c]))
  }

  lemma CalmKeepsIdentifiers<R>(s: State<R>, after: State<R>)
    requires Drawn(s) && Apart(s) && Calm(s, after)
    ensures Drawn(after) && Apart(after)
  {
    assert forall c <- s.clients :: c in after.clients.Keys;
  }

  lemma CalmKeepsClaims<R>(s: State<R>, after: State<R>)
    requires ClaimsStand(s) && Calm(s, after)
    ensures ClaimsStand(after)
  {
    assert forall key <- s.table :: key in after.table.Keys;
  }

  lemma CalmKeepsGrants<R>(s: State<R>, after: State<R>)
    requires AllCounted(s) && GrantsDiffer(s) && Calm(s, after)
    ensures AllCounted(after) && GrantsDiffer(after)
  {
    forall key ensures Counted(after, key) {
      assert Counted(s, key);
      assert key in s.table.Keys <==> key in after.table.Keys;
    }
    assert forall c <- after.clients :: c in s.clients.Keys;
  }

  lemma CompleteIsCalm<R>(s: State<R>, c: nat, ending: Ending)
    requires RowsChecked(s) && ClaimsStand(s)
    ensures Calm(s, RunCompleteStep(s, c, ending)) && RowsChecked(RunCompleteStep(s, c, ending))
  {
    var p, after := PhaseOf(s, c), RunCompleteStep(s, c, ending);
    if DecisionOf(s, c).Some? {
      assert Claimed(s, p.claim);
      if Commits(s, c, ending) {
        CompletionIsLegal(s.table[p.claim.key], p.claim, p.status, p.response, p.calledAt);
      }
      forall key | key in after.table ensures RowCheck(after.table[key]) {
        assert key in s.table;
      }
      assert after.clients.Keys == s.clients.Keys;
      assert after.table.Keys == s.table.Keys;
    }
  }

  lemma QuietIsCalm<R>(s: State<R>, step: Step<R>)
    requires RowsChecked(s) && ClaimsStand(s)
    requires step.BeginComplete? || step.GiveUp? || step.Release? || step.Crash? || step.Tick?
    ensures Calm(s, Apply(s, step)) && RowsChecked(Apply(s, step))
  {
    var after := Apply(s, step);
    assert after.table == s.table;
    assert after.clients.Keys == s.clients.Keys;
  }

  lemma CalmKeepsInv<R>(s: State<R>, after: State<R>)
    requires Inv(s) && Calm(s, after) && RowsChecked(after)
    ensures Inv(after)
  {
    CalmKeepsIdentifiers(s, after);
    CalmKeepsClaims(s, after);
    CalmKeepsGrants(s, after);
  }

  lemma BeginKeepsInv<R>(s: State<R>, c: nat, key: Key, request: string)
    requires Inv(s)
    ensures Inv(BeginStep(s, c, key, request))
  {
    hide RowCheck;
    var after := BeginStep(s, c, key, request);
    if PhaseOf(s, c).Idle? {
      BeginKeepsIdentifiers(s, c, key, request);
      forall k ensures Counted(after, k) { assert Counted(s, k); }
      BeginKeepsGrantsDiffer(s, c, key, request);
      BeginKeepsClaims(s, c, key, request);
      assert RowsChecked(after);
    }
  }

  lemma BeginKeepsIdentifiers<R>(s: State<R>, c: nat, key: Key, request: string)
    requires Drawn(s) && Apart(s) && PhaseOf(s, c).Idle?
    ensures Drawn(BeginStep(s, c, key, request)) && Apart(BeginStep(s, c, key, request))
  {
  }

  lemma BeginKeepsGrantsDiffer<R>(s: State<R>, c: nat, key: Key, request: string)
    requires Drawn(s) && GrantsDiffer(s) && PhaseOf(s, c).Idle?
    ensures GrantsDiffer(BeginStep(s, c, key, request))
  {
  }

  lemma BeginKeepsClaims<R>(s: State<R>, c: nat, key: Key, request: string)
    requires ClaimsStand(s) && PhaseOf(s, c).Idle?
    ensures ClaimsStand(BeginStep(s, c, key, request))
  {
    var after := BeginStep(s, c, key, request);
    forall d | d in after.clients
      ensures after.clients[d].Holding? ==> Claimed(after, after.clients[d].claim)
      ensures after.clients[d].Completing? ==> Claimed(after, after.clients[d].claim)
    {
      assert d != c ==> after.clients[d] == s.clients[d];
    }
  }

  lemma StepKeepsInv<R>(s: State<R>, step: Step<R>)
    requires Inv(s)
    ensures Inv(Apply(s, step))
  {
    hide RowsChecked, Drawn, Apart, ClaimsStand, Counted, GrantsDiffer, Calm, BeginStep, RunClaimStep, RunCompleteStep;
    match step
    case Begin(c, key, request) => BeginKeepsInv(s, c, key, request);
    case RunClaim(c) =>
      if PhaseOf(s, c).Reserved? {
        ClaimKeepsChecked(s, c);
        ClaimKeepsDrawn(s, c);
        ClaimKeepsApart(s, c);
        ClaimKeepsClaims(s, c);
        ClaimKeepsGrantsDiffer(s, c);
        forall key ensures Counted(RunClaimStep(s, c), key) { ClaimKeepsCounted(s, c, key); }
      } else {
        NotReserved(s, c);
      }
    case RunComplete(c, ending) =>
      CompleteIsCalm(s, c, ending);
      CalmKeepsInv(s, Apply(s, step));
    case _ =>
      QuietIsCalm(s, step);
      CalmKeepsInv(s, Apply(s, step));
  }

  lemma NotReserved<R>(s: State<R>, c: nat)
    requires !PhaseOf(s, c).Reserved?
    ensures RunClaimStep(s, c) == s
  {
  }

  lemma {:induction false} InvOfRun<R>(now: int, steps: seq<Step<R>>)
    ensures Inv(Run(now, steps))
  {
    if steps != [] {
      hide Inv, Apply;
      InvOfRun(now, steps[..|steps| - 1]);
      StepKeepsInv(Run(now, steps[..|steps| - 1]), steps[|steps| - 1]);
    }
  }
}
