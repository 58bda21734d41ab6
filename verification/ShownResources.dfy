/** Which resources the pages shown by the web client are of, over every sequence of its events. */
module ShownResources {
  /** What is shown, the resource that is asked for, and whether an answer would still be merged. */
  datatype Picture = Picture(resource: string, online: bool, shown: seq<string>, awaited: bool)

  /**
   * The connection flag is read, another resource is chosen, the client starts over (the online event
   * or the user), notices that the connection went, asks for more, merges an answer or fails on it.
   */
  datatype Event = Flag(up: bool) | Change(name: string) | StartOver | Dropped | Ask | Merge | Lose

  const BLANK := Picture("", false, [], false)

  function Apply(p: Picture, e: Event): Picture {
    match e
    case Flag(up) => p.(online := up)
    case Change(name) => if p.online then Picture(name, true, [], true) else p.(resource := name, awaited := false)
    case StartOver => if p.online then p.(shown := [], awaited := true) else p
    case Dropped => p.(awaited := false)
    case Ask => if p.online && p.shown != [] then p.(awaited := true) else p
    case Merge => if p.awaited then p.(shown := p.shown + [p.resource], awaited := false) else p
    case Lose => p.(awaited := false)
  }

  /** The picture after the first n events. */
  function At(events: seq<Event>, n: nat): Picture
    requires n <= |events|
  {
    if n == 0 then BLANK else Apply(At(events, n - 1), events[n - 1])
  }

  function Run(events: seq<Event>): Picture { At(events, |events|) }

  lemma {:induction false} AtPrefix(events: seq<Event>, more: seq<Event>, n: nat)
    requires n <= |events|
    ensures At(events + more, n) == At(events, n)
  {
    if n > 0 { AtPrefix(events, more, n - 1); }
  }

  lemma RunOneMore(events: seq<Event>, e: Event)
    ensures Run(events + [e]) == Apply(Run(events), e)
  {
    AtPrefix(events, [e], |events|);
  }

  // ---- mixing

  predicate Mixed(shown: seq<string>) { exists p, q :: 0 <= p < q < |shown| && shown[p] != shown[q] }

  lemma MixedOneMore(shown: seq<string>, resource: string)
    ensures Mixed(shown + [resource]) <==> Mixed(shown) || (shown != [] && shown[|shown| - 1] != resource)
  {
    var longer := shown + [resource];
    if Mixed(shown) {
      var p, q :| 0 <= p < q < |shown| && shown[p] != shown[q];
      assert longer[p] != longer[q];
    } else if shown != [] && shown[|shown| - 1] != resource {
      assert longer[|shown| - 1] != longer[|shown|];
    }
  }

  predicate Empties(p: Picture, e: Event) { p.online && (e.Change? || e.StartOver?) }

  predicate Merges(p: Picture, e: Event) { p.awaited && e.Merge? }

  predicate AsksMore(p: Picture, e: Event) { p.online && p.shown != [] && e.Ask? }

  predicate ChangesOffline(p: Picture, e: Event) { !p.online && e.Change? }

  /** From the event i until the event n nothing emptied what is shown. */
  ghost predicate Kept(events: seq<Event>, i: nat, n: nat)
    requires n <= |events|
  {
    forall m :: i <= m < n ==> !Empties(At(events, m), events[m])
  }

  /**
   * A page of one resource was merged, the resource changed while the connection was down, the flag
   * came back, more was asked for and merged while another resource was chosen, and nothing started over.
   */
  ghost predicate Story(events: seq<Event>, i: nat, c: nat, f: nat, j: nat, k: nat) {
    && i < c < f < j < k < |events|
    && Merges(At(events, i), events[i])
    && ChangesOffline(At(events, c), events[c])
    && events[f] == Flag(true)
    && AsksMore(At(events, j), events[j])
    && Merges(At(events, k), events[k])
    && At(events, i).resource != At(events, k).resource
    && Kept(events, i, |events|)
  }

  /** After n events, the page at position p was merged by the event i and kept since. */
  ghost predicate MergedBy(events: seq<Event>, n: nat, p: nat, i: nat)
    requires n <= |events|
  {
    && i < n && Merges(At(events, i), events[i]) && Kept(events, i, n)
    && |At(events, i).shown| == p && p < |At(events, n).shown|
    && At(events, i).resource == At(events, n).shown[p]
  }

  lemma {:induction false} Origin(events: seq<Event>, n: nat, p: nat) returns (i: nat)
    requires n <= |events| && p < |At(events, n).shown|
    ensures MergedBy(events, n, p, i)
  {
    var before, e := At(events, n - 1), events[n - 1];
    assert !Empties(before, e);
    if Merges(before, e) && p == |before.shown| {
      i := n - 1;
    } else {
      i := Origin(events, n - 1, p);
    }
  }

  /** A page that was merged and kept is in its place. */
  lemma {:induction false} StillThere(events: seq<Event>, i: nat, n: nat)
    requires i < n <= |events| && Merges(At(events, i), events[i]) && Kept(events, i, n)
    ensures At(events, i).shown + [At(events, i).resource] <= At(events, n).shown
  {
    if n > i + 1 { StillThere(events, i, n - 1); }
  }

  lemma {:induction false} ChangedBetween(events: seq<Event>, i: nat, n: nat) returns (c: nat)
    requires i <= n <= |events| && At(events, i).resource != At(events, n).resource
    ensures i <= c < n && events[c].Change?
  {
    if events[n - 1].Change? { c := n - 1; } else { c := ChangedBetween(events, i, n - 1); }
  }

  lemma {:induction false} FlagBetween(events: seq<Event>, c: nat, n: nat) returns (f: nat)
    requires c <= n <= |events| && !At(events, c).online && At(events, n).online
    ensures c <= f < n && events[f] == Flag(true)
  {
    if events[n - 1] == Flag(true) { f := n - 1; } else { f := FlagBetween(events, c, n - 1); }
  }

  /** What is awaited was asked for since the last merge, of the resource chosen now. */
  lemma {:induction false} AskedSince(events: seq<Event>, i: nat, k: nat) returns (j: nat)
    requires i < k <= |events| && Merges(At(events, i), events[i]) && Kept(events, i, k) && At(events, k).awaited
    ensures i < j < k && AsksMore(At(events, j), events[j]) && At(events, j).resource == At(events, k).resource
  {
    if AsksMore(At(events, k - 1), events[k - 1]) {
      j := k - 1;
    } else {
      j := AskedSince(events, i, k - 1);
    }
  }

  /** Pages of two resources are shown together exactly if that story happened. */
  lemma MixedExactly(events: seq<Event>)
    ensures Mixed(Run(events).shown) <==> exists i, c, f, j, k :: Story(events, i, c, f, j, k)
  {
    if Mixed(Run(events).shown) {
      var i, c, f, j, k := StoryOf(events);
      assert Story(events, i, c, f, j, k);
    }
    if exists i, c, f, j, k :: Story(events, i, c, f, j, k) {
      var i, c, f, j, k :| Story(events, i, c, f, j, k);
      StoryMixes(events, i, c, f, j, k);
    }
  }

  lemma StoryOf(events: seq<Event>) returns (i: nat, c: nat, f: nat, j: nat, k: nat)
    requires Mixed(Run(events).shown)
    ensures Story(events, i, c, f, j, k)
  {
    var p, q :| 0 <= p < q < |Run(events).shown| && Run(events).shown[p] != Run(events).shown[q];
    i := Origin(events, |events|, p);
    k := Origin(events, |events|, q);
    InOrder(events, p, i, q, k);
    c, f, j := StoryBetween(events, i, k);
  }

  lemma StoryBetween(events: seq<Event>, i: nat, k: nat) returns (c: nat, f: nat, j: nat)
    requires i < k < |events| && Kept(events, i, |events|)
    requires Merges(At(events, i), events[i]) && Merges(At(events, k), events[k])
    requires At(events, i).resource != At(events, k).resource
    ensures Story(events, i, c, f, j, k)
  {
    hide Apply, At;
    j := AskedSince(events, i, k);
    SameResource(events, i);
    c := ChangedBetween(events, i + 1, j);
    assert !Empties(At(events, c), events[c]);
    f := FlagBetween(events, c, j);
    assert c != f;
  }

  lemma InOrder(events: seq<Event>, p: nat, i: nat, q: nat, k: nat)
    requires MergedBy(events, |events|, p, i) && MergedBy(events, |events|, q, k) && p < q
    ensures i < k
  {
    hide Run, At, Apply;
    if k < i { StillThere(events, k, i); }
  }

  /** A merge does not choose a resource. */
  lemma SameResource(events: seq<Event>, i: nat)
    requires i < |events| && Merges(At(events, i), events[i])
    ensures At(events, i + 1).resource == At(events, i).resource
  {
  }

  lemma StoryMixes(events: seq<Event>, i: nat, c: nat, f: nat, j: nat, k: nat)
    requires Story(events, i, c, f, j, k)
    ensures Mixed(Run(events).shown)
  {
    hide At;
    StillThere(events, i, k);
    StillThere(events, i, |events|);
    StillThere(events, k, |events|);
    var shown, p, q := Run(events).shown, |At(events, i).shown|, |At(events, k).shown|;
    assert shown[p] == At(events, i).resource;
    assert shown[q] == At(events, k).resource;
  }

  /** A page shown is of the resource chosen now unless that changed, while offline, after the merge. */
  lemma OfThisResource(events: seq<Event>, p: nat) returns (c: nat)
    requires p < |Run(events).shown| && Run(events).shown[p] != Run(events).resource
    ensures c < |events| && ChangesOffline(At(events, c), events[c]) && Kept(events, c, |events|)
    ensures p < |At(events, c).shown|
  {
    var i := Origin(events, |events|, p);
    c := ChangedBetween(events, i, |events|);
    hide At;
    StillThere(events, i, c);
  }
}
