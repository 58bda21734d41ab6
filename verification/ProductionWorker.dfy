/** The worker that runs one production cycle per completed market minute. */
module ProductionWorker {
  import opened Wrappers
  import opened Sequences
  import opened Domain

  /** What the trading clock says of one exchange at the time of observation. */
  datatype Exchange = Exchange(phase: SessionPhase, continuousMinute: Option<int>, legalMinute: Option<int>)

  datatype Reason = PhaseMismatch | NoCompletedMinute | TargetMismatch | NotContinuous | ReadyForMinute | ReadyAtClose

  /** The minute to run for, if both exchanges agree on one. */
  function TargetOf(sse: Exchange, szse: Exchange, at: int, grace: nat): (Option<int>, Reason) {
    if sse.phase != szse.phase then (None, PhaseMismatch)
    else if InContinuousSession(sse.phase) then
      if sse.continuousMinute.None? || szse.continuousMinute.None? then (None, NoCompletedMinute)
      else if sse.continuousMinute != szse.continuousMinute then (None, TargetMismatch)
      else (sse.continuousMinute, ReadyForMinute)
    else if sse.legalMinute.None? || sse.legalMinute != szse.legalMinute then (None, NotContinuous)
    else if at - sse.legalMinute.value > grace then (None, NotContinuous)
    else if at - at % MINUTE != sse.legalMinute.value then (None, NotContinuous)
    else (sse.legalMinute, ReadyAtClose)
  }

  /**
   * Both exchanges give the minute: in a continuous session the one last completed, otherwise the session's
   * right edge, which must be the current minute and no older than the grace.
   */
  predicate Agreed(sse: Exchange, szse: Exchange, at: int, grace: nat, target: int) {
    && sse.phase == szse.phase
    && if sse.phase == ContinuousAm || sse.phase == ContinuousPm then
         sse.continuousMinute == Some(target) && szse.continuousMinute == Some(target)
       else
         && sse.legalMinute == Some(target) && szse.legalMinute == Some(target)
         && target % MINUTE == 0 && target <= at < target + MINUTE && at <= target + grace
  }

  /** There is a target exactly if both exchanges give it, and the reason tells the cases apart. */
  lemma TargetExactly(sse: Exchange, szse: Exchange, at: int, grace: nat)
    ensures var (target, reason) := TargetOf(sse, szse, at, grace);
            var session := sse.phase == ContinuousAm || sse.phase == ContinuousPm;
            var known := sse.continuousMinute.Some? && szse.continuousMinute.Some?;
            && (forall t :: target == Some(t) <==> Agreed(sse, szse, at, grace, t))
            && (reason == PhaseMismatch <==> sse.phase != szse.phase)
            && (reason == NoCompletedMinute <==> sse.phase == szse.phase && session && !known)
            && (reason == TargetMismatch
                <==> sse.phase == szse.phase && session && known && sse.continuousMinute != szse.continuousMinute)
            && (reason == NotContinuous <==> sse.phase == szse.phase && !session && target.None?)
            && (reason == ReadyForMinute <==> session && target.Some?)
            && (reason == ReadyAtClose <==> !session && target.Some?)
  {
  }

  /** The market minute that names a cycle: date and time of day in the market's zone, eight hours ahead. */
  function KeyOf(target: int): int { (target + 8 * HOUR) / MINUTE }

  /** Whole minutes have the same key exactly if they are the same. */
  lemma KeyNamesMinute(a: int, b: int)
    requires a % MINUTE == 0 && b % MINUTE == 0
    ensures KeyOf(a) == KeyOf(b) <==> a == b
    ensures KeyOf(a) < KeyOf(b) <==> a < b
  {
    var m, n := a / MINUTE, b / MINUTE;
    assert a == m * MINUTE && b == n * MINUTE;
    assert KeyOf(a) == m + 480 && KeyOf(b) == n + 480;
  }

  datatype Outcome = Completes | Raises

  /** What one poll finds, and what the cycle does if one is run. */
  datatype Observation = Observation(at: int, sse: Exchange, szse: Exchange, outcome: Outcome) {
    function Target(grace: nat): Option<int> { TargetOf(sse, szse, at, grace).0 }
  }

  /** The targets of those polls that have one. */
  function Targets(observations: seq<Observation>, grace: nat): seq<int> {
    if observations == [] then []
    else
      var target := observations[|observations| - 1].Target(grace);
      Targets(observations[..|observations| - 1], grace) + if target.None? then [] else [target.value]
  }

  datatype Tick =
    | NoCycle(reason: Reason) | SkippedDuplicate(key: int) | SkippedBusy(key: int) | SkippedDisabled(key: int)
    | FailedCycle(key: int) | CompletedCycle(key: int)

  class ContinuousProductionWorker {
    const enabled: bool
    const grace: nat
    var lastKey: Option<int>
    var lastSession: Option<(SessionPhase, SessionPhase)>
    var cycleLock: bool
    /** The keys that ticks had a target for, and the keys that the cycle runner was called with. */
    ghost var keys: seq<int>
    ghost var calls: seq<int>

    /** Between ticks of one thread: the runner was called once for each change of key. */
    ghost predicate Valid()
      reads this
    {
      && !cycleLock
      && lastKey == (if keys == [] then None else Some(keys[|keys| - 1]))
      && calls == (if enabled then Collapse(keys) else [])
    }

    constructor (enabled: bool, grace: nat)
      ensures Valid() && keys == [] && this.enabled == enabled && this.grace == grace
    {
      this.enabled, this.grace := enabled, grace;
      lastKey, lastSession, cycleLock := None, None, false;
      keys, calls := [], [];
    }

    /** One tick; another caller may hold the lock, and the runner may raise. */
    method Tick(at: int, sse: Exchange, szse: Exchange, outcome: Outcome) returns (tick: Tick)
      modifies this
      ensures cycleLock == old(cycleLock)
      ensures old(Valid()) ==> Valid()
      ensures var target := TargetOf(sse, szse, at, grace).0;
              if target.None? then
                tick == NoCycle(TargetOf(sse, szse, at, grace).1) && keys == old(keys) && calls == old(calls)
              else
                var key := KeyOf(target.value);
                && keys == old(keys) + [key]
                && if old(lastKey) == Some(key) then tick == SkippedDuplicate(key) && calls == old(calls)
                   else if old(cycleLock) then
                     tick == SkippedBusy(key) && calls == old(calls) && lastKey == old(lastKey)
                   else
                     && lastKey == Some(key)
                     && calls == (if enabled then old(calls) + [key] else old(calls))
                     && tick == (if !enabled then SkippedDisabled(key)
                                 else if outcome == Raises then FailedCycle(key) else CompletedCycle(key))
    {
      var (target, reason) := TargetOf(sse, szse, at, grace);
      if Some((sse.phase, szse.phase)) != lastSession {
        lastSession := Some((sse.phase, szse.phase));
      }
      if target.None? {
        return NoCycle(reason);
      }
      var key := KeyOf(target.value);
      CollapseOneMore(keys, key);
      keys := keys + [key];
      if lastKey == Some(key) {
        return SkippedDuplicate(key);
      }
      if cycleLock {
        return SkippedBusy(key);
      }
      cycleLock := true;
      lastKey := Some(key);
      if !enabled {
        cycleLock := false;
        return SkippedDisabled(key);
      }
      calls := calls + [key];
      cycleLock := false;
      if outcome == Raises {
        return FailedCycle(key);
      }
      return CompletedCycle(key);
    }

    /** One poll; what the tick does is in its contract, and whatever it raises is only logged. */
    method Poll(o: Observation)
      requires Valid()
      modifies this
      ensures Valid()
      ensures var target := o.Target(grace); keys == old(keys) + if target.None? then [] else [KeyOf(target.value)]
    {
      var _ := Tick(o.at, o.sse, o.szse, o.outcome);
    }

    /**
     * Polls until it is stopped. As long as the targets do not go back, the runner was called once for
     * each market minute that was a target, in their order, whatever cycles raised.
     */
    method RunForever(observations: seq<Observation>)
      requires Valid()
      modifies this
      ensures Valid() && keys == old(keys) + Map(KeyOf, Targets(observations, grace))
      ensures !enabled ==> calls == []
      ensures enabled && NonDecreasing(keys) ==> Increasing(calls) && forall key :: key in calls <==> key in keys
      ensures old(keys) == [] && NonDecreasing(Targets(observations, grace)) ==> NonDecreasing(keys)
    {
      var i := 0;
      while i < |observations|
        invariant 0 <= i <= |observations| && Valid()
        invariant keys == old(keys) + Map(KeyOf, Targets(observations[..i], grace))
      {
        TargetsOneMore(observations, i, grace);
        Poll(observations[i]);
        i := i + 1;
      }
      assert observations[..i] == observations;
      OncePerMinute(old(keys), Targets(observations, grace));
    }
  }

  /** Keys that do not go back collapse to one call for each, in their order. */
  lemma OncePerMinute(before: seq<int>, targets: seq<int>)
    ensures var keys := before + Map(KeyOf, targets);
            && (NonDecreasing(keys) ==> Increasing(Collapse(keys)))
            && (NonDecreasing(keys) ==> forall key :: key in Collapse(keys) <==> key in keys)
            && (before == [] && NonDecreasing(targets) ==> NonDecreasing(keys))
  {
    hide Increasing, NonDecreasing, Collapse, Map;
    var keys := before + Map(KeyOf, targets);
    if NonDecreasing(keys) { CollapseIncreases(keys); }
    if before == [] && NonDecreasing(targets) {
      KeysDoNotGoBack(targets);
      assert keys == Map(KeyOf, targets);
    }
  }

  lemma TargetsOneMore(observations: seq<Observation>, i: nat, grace: nat)
    requires i < |observations|
    ensures var target := observations[i].Target(grace); var before := Targets(observations[..i], grace);
            Map(KeyOf, Targets(observations[..i + 1], grace))
            == Map(KeyOf, before) + (if target.None? then [] else [KeyOf(target.value)])
  {
    assert observations[..i + 1][..i] == observations[..i];
  }

  lemma CollapseOneMore(keys: seq<int>, key: int)
    ensures Collapse(keys + [key])
            == Collapse(keys) + (if keys != [] && keys[|keys| - 1] == key then [] else [key])
  {
    assert (keys + [key])[..|keys|] == keys;
  }

  // ---- targets that do not go back

  ghost predicate NonDecreasing(s: seq<int>) { forall i, j :: 0 <= i < j < |s| ==> s[i] <= s[j] }

  ghost predicate Increasing(s: seq<int>) { forall i, j :: 0 <= i < j < |s| ==> s[i] < s[j] }

  lemma {:induction false} CollapseIncreases(s: seq<int>)
    requires NonDecreasing(s)
    ensures Increasing(Collapse(s))
    ensures forall x :: x in Collapse(s) <==> x in s
  {
    if s != [] {
      var front, last := s[..|s| - 1], s[|s| - 1];
      CollapseIncreases(front);
      assert s == front + [last];
      forall x | x in Collapse(front) ensures x <= last {
        var i :| 0 <= i < |front| && front[i] == x;
        assert s[i] <= s[|s| - 1];
      }
    }
  }

  lemma KeysDoNotGoBack(targets: seq<int>)
    requires NonDecreasing(targets)
    ensures NonDecreasing(Map(KeyOf, targets))
  {
    var keys := Map(KeyOf, targets);
    forall i, j | 0 <= i < j < |keys| ensures keys[i] <= keys[j] { LaterKey(targets[i], targets[j]); }
  }

  lemma LaterKey(a: int, b: int)
    requires a <= b
    ensures KeyOf(a) <= KeyOf(b)
  {
  }

  // ---- concurrent callers

  /**
   * Where a caller of tick is: past the duplicate check, holding the lock, or out again. `seen` is the
   * number of calls there had been at its check.
   */
  datatype Caller = Checked(key: int, seen: nat) | Running(key: int) | Out

  datatype World = World(lastKey: Option<int>, holder: Option<nat>, callers: map<nat, Caller>, calls: seq<int>)

  /**
   * Taking the lock and noting the key are one step: a check between the two reads what it would have
   * read just before the lock was taken.
   */
  datatype Move = Check(caller: nat, key: int) | Acquire(caller: nat) | Leave(caller: nat)

  function Apply(w: World, m: Move): World {
    match m
    case Check(c, key) =>
      if c in w.callers && !w.callers[c].Out? then w
      else w.(callers := w.callers[c := if w.lastKey == Some(key) then Out else Checked(key, |w.calls|)])
    case Acquire(c) =>
      if !Waiting(w, c) then w
      else if w.holder.Some? then w.(callers := w.callers[c := Out])
      else
        var key := w.callers[c].key;
        World(Some(key), Some(c), w.callers[c := Running(key)], w.calls + [key])
    case Leave(c) =>
      if c !in w.callers || !w.callers[c].Running? then w
      else w.(holder := None, callers := w.callers[c := Out])
  }

  predicate Waiting(w: World, c: nat) { c in w.callers && w.callers[c].Checked? }

  function Run(moves: seq<Move>): World {
    if moves == [] then World(None, None, map[], []) else Apply(Run(moves[..|moves| - 1]), moves[|moves| - 1])
  }

  /** Cycles exclude each other: whoever runs is the one holder of the lock. */
  lemma {:induction false} MutualExclusion(moves: seq<Move>, c: nat)
    ensures var w := Run(moves); c in w.callers && w.callers[c].Running? <==> w.holder == Some(c)
  {
    if moves != [] {
      var before, m := moves[..|moves| - 1], moves[|moves| - 1];
      MutualExclusion(before, c);
      MutualExclusion(before, m.caller);
    }
  }

  /** No caller comes to its duplicate check with an earlier minute than one before it. */
  ghost predicate ChecksDoNotGoBack(moves: seq<Move>) {
    forall i, j :: 0 <= i < j < |moves| && moves[i].Check? && moves[j].Check? ==> moves[i].key <= moves[j].key
  }

  /** What `bad` says was never so of a caller when it got the lock. */
  predicate Never(bad: (World, nat) -> bool, moves: seq<Move>) {
    moves == []
    || (var before, m := moves[..|moves| - 1], moves[|moves| - 1];
        Never(bad, before) && !(TakesLock(Run(before), m) && bad(Run(before), m.caller)))
  }

  predicate TakesLock(w: World, m: Move) { m.Acquire? && Waiting(w, m.caller) && w.holder.None? }

  /** While the caller waited between its check and the lock, its minute or a later one was run. */
  predicate Overtaken(w: World, c: nat) {
    Waiting(w, c) && exists i :: w.callers[c].seen <= i < |w.calls| && w.calls[i] >= w.callers[c].key
  }

  /** Another caller took the lock for the same minute while this one waited. */
  predicate TakenMeanwhile(w: World, c: nat) {
    Waiting(w, c) && exists i :: w.callers[c].seen <= i < |w.calls| && w.calls[i] == w.callers[c].key
  }

  /** While the caller waited, a later minute than its own was run. */
  predicate PassedByLater(w: World, c: nat) {
    Waiting(w, c) && exists i :: w.callers[c].seen <= i < |w.calls| && w.calls[i] > w.callers[c].key
  }

  /** At the caller's check the last key was earlier than its own, but its minute or a later one had been run before. */
  predicate HiddenAtCheck(w: World, c: nat) {
    && Waiting(w, c) && 0 < w.callers[c].seen <= |w.calls| && w.calls[w.callers[c].seen - 1] < w.callers[c].key
    && exists i :: 0 <= i < w.callers[c].seen && w.calls[i] >= w.callers[c].key
  }

  predicate RunsAgain(w: World, c: nat) { TakenMeanwhile(w, c) || HiddenAtCheck(w, c) }

  ghost predicate Distinct(s: seq<int>) { forall i, j :: 0 <= i < j < |s| ==> s[i] != s[j] }

  /** What the checks compared with: calls before a check are no later than its key, and the last is another. */
  ghost predicate ChecksKnow(w: World) {
    && w.lastKey == (if w.calls == [] then None else Some(w.calls[|w.calls| - 1]))
    && forall c | Waiting(w, c) :: CheckKnows(w, w.callers[c].key, w.callers[c].seen)
  }

  ghost predicate CheckKnows(w: World, key: int, seen: nat) {
    && seen <= |w.calls|
    && (forall i :: 0 <= i < seen ==> w.calls[i] <= key)
    && (seen > 0 ==> w.calls[seen - 1] != key)
  }

  ghost predicate UpTo(w: World, most: int) {
    && (forall i :: 0 <= i < |w.calls| ==> w.calls[i] <= most)
    && forall c | Waiting(w, c) :: w.callers[c].key <= most
  }

  /** Calls and callers hold no minute beyond those checked. */
  lemma {:induction false} KeysUpTo(moves: seq<Move>, most: int)
    requires forall i :: 0 <= i < |moves| && moves[i].Check? ==> moves[i].key <= most
    ensures UpTo(Run(moves), most)
  {
    if moves != [] {
      var before := moves[..|moves| - 1];
      KeysUpTo(before, most);
      UpToStep(Run(before), moves[|moves| - 1], most);
    }
  }

  lemma UpToStep(w: World, m: Move, most: int)
    requires UpTo(w, most) && (m.Check? ==> m.key <= most)
    ensures UpTo(Apply(w, m), most)
  {
    var after := Apply(w, m);
    forall c | Waiting(after, c) ensures after.callers[c].key <= most {
      if !m.Check? || c != m.caller { assert Waiting(w, c); }
    }
  }

  lemma {:induction false} ChecksKnowOfRun(moves: seq<Move>)
    requires ChecksDoNotGoBack(moves)
    ensures ChecksKnow(Run(moves))
  {
    if moves != [] {
      var before, m := moves[..|moves| - 1], moves[|moves| - 1];
      FewerChecks(moves);
      ChecksKnowOfRun(before);
      var w, after := Run(before), Run(moves);
      if m.Check? { KeysUpTo(before, m.key); }
      forall c | Waiting(after, c) ensures CheckKnows(after, after.callers[c].key, after.callers[c].seen) {
        if Waiting(w, c) { assert CheckKnows(w, w.callers[c].key, w.callers[c].seen); }
      }
    }
  }

  lemma FewerChecks(moves: seq<Move>)
    requires moves != [] && ChecksDoNotGoBack(moves)
    ensures ChecksDoNotGoBack(moves[..|moves| - 1])
    ensures moves[|moves| - 1].Check? ==>
              forall i :: 0 <= i < |moves| - 1 && moves[i].Check? ==> moves[i].key <= moves[|moves| - 1].key
  {
  }

  /** The minutes run go strictly forward exactly if no caller got the lock after being overtaken. */
  lemma {:induction false} ForwardExactly(moves: seq<Move>)
    requires ChecksDoNotGoBack(moves)
    ensures Increasing(Run(moves).calls) <==> Never(Overtaken, moves)
  {
    if moves != [] {
      var before, m := moves[..|moves| - 1], moves[|moves| - 1];
      FewerChecks(moves);
      ForwardExactly(before);
      ChecksKnowOfRun(before);
      if TakesLock(Run(before), m) { ForwardStep(Run(before), m.caller); }
    }
  }

  lemma ForwardStep(w: World, c: nat)
    requires ChecksKnow(w) && TakesLock(w, Acquire(c))
    ensures Increasing(Apply(w, Acquire(c)).calls) <==> Increasing(w.calls) && !Overtaken(w, c)
  {
    var key, seen, longer := w.callers[c].key, w.callers[c].seen, Apply(w, Acquire(c)).calls;
    assert CheckKnows(w, key, seen);
    assert longer == w.calls + [key];
    if Increasing(longer) {
      forall i, j | 0 <= i < j < |w.calls| ensures w.calls[i] < w.calls[j] {
        assert longer[i] < longer[j];
      }
      forall i | 0 <= i < |w.calls| ensures w.calls[i] < key { assert longer[i] < longer[|w.calls|]; }
    }
  }

  /**
   * No minute is run twice exactly if no caller got the lock for a minute that another had taken it for
   * while it waited, or that had been run before its check behind an earlier last key.
   */
  lemma {:induction false} OnceExactly(moves: seq<Move>)
    requires ChecksDoNotGoBack(moves)
    ensures Distinct(Run(moves).calls) <==> Never(RunsAgain, moves)
  {
    if moves != [] {
      var before, m := moves[..|moves| - 1], moves[|moves| - 1];
      FewerChecks(moves);
      OnceExactly(before);
      ChecksKnowOfRun(before);
      if TakesLock(Run(before), m) { OnceStep(Run(before), m.caller); }
    }
  }

  lemma OnceStep(w: World, c: nat)
    requires ChecksKnow(w) && TakesLock(w, Acquire(c))
    ensures Distinct(Apply(w, Acquire(c)).calls) <==> Distinct(w.calls) && !RunsAgain(w, c)
  {
    var key, seen, longer := w.callers[c].key, w.callers[c].seen, Apply(w, Acquire(c)).calls;
    assert CheckKnows(w, key, seen);
    assert longer == w.calls + [key];
    if Distinct(longer) {
      forall i, j | 0 <= i < j < |w.calls| ensures w.calls[i] != w.calls[j] {
        assert longer[i] != longer[j];
      }
      forall i | 0 <= i < |w.calls| ensures w.calls[i] != key { assert longer[i] != longer[|w.calls|]; }
    }
  }

  /**
   * As long as no caller got the lock after a later minute was run while it waited, a minute is run
   * twice exactly if another caller took the lock for it between its caller's check and lock.
   */
  lemma {:induction false} OnceUnlessPassed(moves: seq<Move>)
    requires ChecksDoNotGoBack(moves) && Never(PassedByLater, moves)
    ensures NonDecreasing(Run(moves).calls)
    ensures Distinct(Run(moves).calls) <==> Never(TakenMeanwhile, moves)
  {
    if moves != [] {
      var before, m := moves[..|moves| - 1], moves[|moves| - 1];
      FewerChecks(moves);
      OnceUnlessPassed(before);
      ChecksKnowOfRun(before);
      if TakesLock(Run(before), m) {
        NothingHidden(Run(before), m.caller);
        OnceStep(Run(before), m.caller);
      }
    }
  }

  lemma NothingHidden(w: World, c: nat)
    requires ChecksKnow(w) && TakesLock(w, Acquire(c)) && NonDecreasing(w.calls) && !PassedByLater(w, c)
    ensures !HiddenAtCheck(w, c) && NonDecreasing(Apply(w, Acquire(c)).calls)
  {
    assert CheckKnows(w, w.callers[c].key, w.callers[c].seen);
  }

  lemma RunOneMore(moves: seq<Move>, m: Move)
    ensures Run(moves + [m]) == Apply(Run(moves), m)
    ensures Never(TakenMeanwhile, moves + [m])
            <==> Never(TakenMeanwhile, moves) && !(TakesLock(Run(moves), m) && TakenMeanwhile(Run(moves), m.caller))
  {
    assert (moves + [m])[..|moves|] == moves;
  }

  lemma RunTwoMore(moves: seq<Move>, m: Move, n: Move)
    ensures Run(moves + [m, n]) == Apply(Apply(Run(moves), m), n)
    ensures Never(TakenMeanwhile, moves + [m, n])
            || TakenMeanwhile(Run(moves), m.caller) || TakenMeanwhile(Apply(Run(moves), m), n.caller)
            || !Never(TakenMeanwhile, moves)
  {
    RunOneMore(moves, m);
    RunOneMore(moves + [m], n);
    assert (moves + [m]) + [n] == moves + [m, n];
  }

  lemma BothChecked(k: int, later: int)
    ensures var two := [Check(0, k), Check(1, later)];
            && Run(two) == World(None, None, map[0 := Checked(k, 0), 1 := Checked(later, 0)], [])
            && Never(TakenMeanwhile, two)
  {
    RunTwoMore([], Check(0, k), Check(1, later));
    assert [] + [Check(0, k), Check(1, later)] == [Check(0, k), Check(1, later)];
  }

  /** The duplicate check precedes the lock, so two callers may run the same key one after the other. */
  lemma SameKeyTwice(key: int)
    ensures var moves := [Check(0, key), Check(1, key)] + [Acquire(0), Leave(0)] + [Acquire(1)];
            ChecksDoNotGoBack(moves) && Run(moves).calls == [key, key]
  {
    hide Run, Never;
    BothChecked(key, key);
    RunTwoMore([Check(0, key), Check(1, key)], Acquire(0), Leave(0));
    RunOneMore([Check(0, key), Check(1, key)] + [Acquire(0), Leave(0)], Acquire(1));
  }

  /** Or a minute that was the last key before the last one, so that the keys go back. */
  lemma KeysGoBack(k: int, later: int)
    requires k < later
    ensures var moves := [Check(0, k), Check(1, k)] + [Acquire(0), Leave(0)] + [Check(2, later), Acquire(2)]
                         + [Leave(2), Acquire(1)];
            ChecksDoNotGoBack(moves) && Run(moves).calls == [k, later, k]
  {
    hide Run, Never;
    var two := [Check(0, k), Check(1, k)];
    var four := two + [Acquire(0), Leave(0)];
    assert Run(four) == World(Some(k), None, map[0 := Out, 1 := Checked(k, 0)], [k]) by {
      BothChecked(k, k);
      RunTwoMore(two, Acquire(0), Leave(0));
    }
    RunTwoMore(four, Check(2, later), Acquire(2));
    RunTwoMore(four + [Check(2, later), Acquire(2)], Leave(2), Acquire(1));
  }

  /** A caller is overtaken before it gets the lock. */
  lemma LaterMinuteFirst(k: int, later: int)
    requires k < later
    ensures var moves := [Check(0, k), Check(1, later)] + [Acquire(1), Leave(1)];
            && Never(TakenMeanwhile, moves)
            && Run(moves) == World(Some(later), None, map[0 := Checked(k, 0), 1 := Out], [later])
  {
    hide Run, Never;
    BothChecked(k, later);
    RunTwoMore([Check(0, k), Check(1, later)], Acquire(1), Leave(1));
  }

  /** It puts the last key back, and a minute runs again that nobody else took while its caller waited. */
  lemma HiddenMinute(k: int, later: int)
    requires k < later
    ensures var moves := [Check(0, k), Check(1, later)] + [Acquire(1), Leave(1)] + [Acquire(0), Leave(0)]
                         + [Check(2, later), Acquire(2)];
            ChecksDoNotGoBack(moves) && Never(TakenMeanwhile, moves) && Run(moves).calls == [later, k, later]
  {
    hide Run, Never;
    var four := [Check(0, k), Check(1, later)] + [Acquire(1), Leave(1)];
    var six := four + [Acquire(0), Leave(0)];
    assert Run(six) == World(Some(k), None, map[0 := Out, 1 := Out], [later, k]) && Never(TakenMeanwhile, six) by {
      LaterMinuteFirst(k, later);
      RunTwoMore(four, Acquire(0), Leave(0));
    }
    RunTwoMore(six, Check(2, later), Acquire(2));
  }
}
