/** The lifecycle of a subject: which moves are legal, and the projection that remembers the last. */
module Lifecycles {
  import opened Wrappers
  import opened Sequences
  import opened Domain

  datatype Lifecycle = Observing | Starting | Expanding | Accelerating | Diverging | Declining

  predicate Legal(from: Lifecycle, to: Lifecycle) {
    match from
    case Observing => to == Starting
    case Starting => to == Observing || to == Expanding || to == Declining
    case Expanding => to == Starting || to == Accelerating || to == Diverging || to == Declining
    case Accelerating => to == Expanding || to == Diverging || to == Declining
    case Diverging => to == Expanding || to == Declining || to == Observing
    case Declining => to == Observing || to == Starting || to == Diverging
  }

  /** The current state of one subject. */
  datatype StateProjection = StateProjection(
    availability: Availability, effective: Option<Lifecycle>, lastValid: Option<Lifecycle>,
    lastValidTime: Option<int>, evaluation: nat, asOf: int, version: nat, rewarm: bool)

  datatype Transition = Transition(
    uid: nat, subject: string, from: Option<Lifecycle>, to: Lifecycle, evaluation: nat, occurredAt: int)

  function ActualVersion(current: Option<StateProjection>): nat {
    if current.None? then 0 else current.value.version
  }

  /** The state a move starts from: a gap without lifecycle does not forget the last valid one. */
  function Previous(current: Option<StateProjection>): Option<Lifecycle> {
    if current.None? then None
    else if current.value.effective.Some? then current.value.effective
    else current.value.lastValid
  }

  predicate IllegalMove(previous: Option<Lifecycle>, lifecycle: Option<Lifecycle>) {
    lifecycle.Some? && previous.Some? && previous != lifecycle && !Legal(previous.value, lifecycle.value)
  }

  function NextProjection(
    current: Option<StateProjection>, availability: Availability, lifecycle: Option<Lifecycle>,
    evaluation: nat, asOf: int)
    : StateProjection
  {
    StateProjection(
      availability, lifecycle,
      if lifecycle.Some? then lifecycle else if current.None? then None else current.value.lastValid,
      if lifecycle.Some? then Some(asOf) else if current.None? then None else current.value.lastValidTime,
      evaluation, asOf, ActualVersion(current) + 1, availability == WarmingUp)
  }

  predicate Moves(current: Option<StateProjection>, lifecycle: Option<Lifecycle>) {
    lifecycle.Some? && Previous(current) != lifecycle
  }

  // ---- one subject's history

  function TransitionsOf(transitions: seq<Transition>, subject: string): seq<Transition> {
    if transitions == [] then []
    else
      var last := transitions[|transitions| - 1];
      TransitionsOf(transitions[..|transitions| - 1], subject) + (if last.subject == subject then [last] else [])
  }

  function TargetOf(t: Transition): Lifecycle { t.to }

  /** From one state to the next by legal moves only, starting from nothing. */
  ghost predicate LegalPath(path: seq<Transition>) {
    && (path != [] ==> path[0].from == None)
    && forall i, j :: 0 <= i < j == i + 1 < |path| ==>
         path[j].from == Some(path[i].to) && path[i].to != path[j].to && Legal(path[i].to, path[j].to)
  }

  function LastOf(states: seq<Lifecycle>): Option<Lifecycle> {
    if states == [] then None else Some(states[|states| - 1])
  }

  /**
   * The projection and the transitions of one subject, after `commits` commits of which the
   * available ones carried the lifecycles `states`.
   */
  ghost predicate Follows(
    current: Option<StateProjection>, path: seq<Transition>, commits: nat, states: seq<Lifecycle>)
  {
    && Map(TargetOf, path) == Collapse(states)
    && LegalPath(path)
    && ActualVersion(current) == commits
    && (current.None? <==> commits == 0)
    && (current.None? ==> states == [])
    && (current.Some? ==>
          && current.value.lastValid == LastOf(states)
          && (current.value.effective.Some? ==> current.value.effective == current.value.lastValid))
  }

  lemma PathGrows(path: seq<Transition>, t: Transition)
    requires LegalPath(path)
    requires t.from == (if path == [] then None else Some(path[|path| - 1].to))
    requires path != [] ==> path[|path| - 1].to != t.to && Legal(path[|path| - 1].to, t.to)
    ensures LegalPath(path + [t])
  {
    hide Legal;
  }

  lemma CollapseGrows(states: seq<Lifecycle>, x: Lifecycle)
    ensures Collapse(states + [x]) == Collapse(states) + (if LastOf(states) == Some(x) then [] else [x])
  {
    assert (states + [x])[..|states|] == states;
  }

  lemma StaysTheSame(
    current: Option<StateProjection>, path: seq<Transition>, commits: nat, states: seq<Lifecycle>,
    availability: Availability, lifecycle: Option<Lifecycle>, evaluation: nat, asOf: int)
    requires Follows(current, path, commits, states)
    requires !Moves(current, lifecycle)
    ensures Follows(
              Some(NextProjection(current, availability, lifecycle, evaluation, asOf)), path, commits + 1,
              states + (if lifecycle.Some? then [lifecycle.value] else []))
  {
    hide LegalPath, Legal, Map, Collapse;
    if lifecycle.Some? {
      CollapseGrows(states, lifecycle.value);
    } else {
      assert states + [] == states;
    }
  }

  lemma MovesOn(
    current: Option<StateProjection>, path: seq<Transition>, commits: nat, states: seq<Lifecycle>,
    availability: Availability, lifecycle: Option<Lifecycle>, evaluation: nat, asOf: int, t: Transition)
    requires Follows(current, path, commits, states)
    requires Moves(current, lifecycle) && !IllegalMove(Previous(current), lifecycle)
    requires t.from == Previous(current) && Some(t.to) == lifecycle
    ensures Follows(
              Some(NextProjection(current, availability, lifecycle, evaluation, asOf)), path + [t], commits + 1,
              states + [lifecycle.value])
  {
    hide LegalPath, Legal, Map, Collapse;
    CollapseGrows(states, lifecycle.value);
    TargetsGrow(path, t);
    LastTarget(path, states);
    PathGrows(path, t);
  }

  lemma TargetsGrow(path: seq<Transition>, t: Transition)
    ensures Map(TargetOf, path + [t]) == Map(TargetOf, path) + [t.to]
  {
    MapConcat(TargetOf, path, [t]);
  }

  lemma LastTarget(path: seq<Transition>, states: seq<Lifecycle>)
    requires Map(TargetOf, path) == Collapse(states)
    ensures LastOf(states) == if path == [] then None else Some(path[|path| - 1].to)
  {
  }
}
