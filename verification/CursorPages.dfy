/** The page accumulator of the web client: requests, responses and connection events in any order. */
module CursorPages {
  import opened Wrappers
  import opened KeysetPages
  import C = CursorCodec
  import S = ShownResources

  datatype Status = Loading | Ready | Failing | Stale | Offline

  /** A request on its way; `sequence` is the number it was given. */
  datatype Pending = Pending(sequence: nat, cursor: Option<string>, reset: bool, resource: string)

  datatype Response = Arrived(listing: Listing) | Lost

  /** A page that was merged, with the request that brought it. */
  datatype Accepted = Accepted(resource: string, cursor: Option<string>, listing: Listing)

  // ---- chains of accepted pages

  function ListingsOf(chain: seq<Accepted>): seq<Listing> {
    if chain == [] then [] else [chain[0].listing] + ListingsOf(chain[1..])
  }

  function NextOf(chain: seq<Accepted>): Option<string> {
    if chain == [] then None else chain[|chain| - 1].listing.nextCursor
  }

  /** Each page was asked for with the cursor of the page before. */
  ghost predicate Linked(chain: seq<Accepted>) {
    chain == []
    || (var front, last := chain[..|chain| - 1], chain[|chain| - 1];
        Linked(front) && last.cursor == NextOf(front) && (front != [] ==> last.cursor.Some?))
  }

  ghost predicate SeenIn(seen: set<string>, chain: seq<Accepted>) {
    forall x :: x in seen <==> exists a <- chain :: a.listing.nextCursor == Some(x)
  }

  lemma {:induction false} ItemsGrow(walk: seq<Listing>, l: Listing)
    ensures Items(walk + [l]) == Items(walk) + l.items
  {
    if walk == [] {
      assert walk + [l] == [l] && Items([l]) == l.items;
      assert [] + l.items == l.items;
    } else {
      ItemsGrow(walk[1..], l);
      assert (walk + [l])[1..] == walk[1..] + [l];
      assert walk[0].items + (Items(walk[1..]) + l.items) == walk[0].items + Items(walk[1..]) + l.items;
    }
  }

  lemma {:induction false} ListingsGrow(chain: seq<Accepted>, a: Accepted)
    ensures ListingsOf(chain + [a]) == ListingsOf(chain) + [a.listing]
  {
    if chain != [] {
      ListingsGrow(chain[1..], a);
      assert (chain + [a])[1..] == chain[1..] + [a];
    }
  }

  lemma LinkGrows(chain: seq<Accepted>, a: Accepted)
    requires Linked(chain) && a.cursor == NextOf(chain) && (chain != [] ==> a.cursor.Some?)
    ensures Linked(chain + [a]) && NextOf(chain + [a]) == a.listing.nextCursor
  {
    assert (chain + [a])[..|chain|] == chain;
  }

  // ---- the server behind the chain

  /** Every page is what the service lists from a growing table at the time of its request. */
  ghost predicate FromServer(digest: C.Digest, limit: nat, chain: seq<Accepted>, tables: seq<seq<Row>>) {
    && |tables| == |chain|
    && forall i :: 0 <= i < |chain| ==> ListRows(digest, tables[i], chain[i].cursor, limit) == Some(chain[i].listing)
  }

  /** A chain with every cursor position beyond the one before. */
  ghost predicate Advances(digest: C.Digest, chain: seq<Accepted>, keys: seq<Key>) {
    && |keys| == |chain|
    && (forall i :: 0 <= i < |chain| && chain[i].listing.nextCursor.Some? ==>
          chain[i].listing.nextCursor == Some(C.EncodeCursor(digest, keys[i].0, keys[i].1)))
    && forall i, j :: 0 <= i < j < |keys| && chain[j].listing.nextCursor.Some? ==> KeyLess(keys[i], keys[j])
  }

  /** The position that a listing of the service leads to lies beyond the position it was asked from. */
  lemma NextAdvances(digest: C.Digest, rows: seq<Row>, cursor: Option<string>, limit: nat, k: Key) returns (n: Key)
    requires Ascending(rows) && limit >= 1 && StandsFor(digest, cursor, k)
    ensures ListRows(digest, rows, cursor, limit).Some?
    ensures var l := ListRows(digest, rows, cursor, limit).value;
            l.nextCursor.Some? ==> l.nextCursor == Some(C.EncodeCursor(digest, n.0, n.1)) && KeyLess(k, n)
  {
    ListingOfPage(digest, rows, cursor, limit, k);
    PageCovers(rows, k, limit);
    hide PageAfter, ListRows, C.EncodeCursor, KeyLess;
    var page := PageAfter(rows, k, limit);
    n := if page.next.Some? then page.next.value else k;
  }

  lemma {:induction false} ChainAdvances(digest: C.Digest, limit: nat, chain: seq<Accepted>, tables: seq<seq<Row>>)
    returns (keys: seq<Key>)
    requires Linked(chain) && FromServer(digest, limit, chain, tables) && limit >= 1
    requires forall t <- tables :: Ascending(t)
    ensures Advances(digest, chain, keys)
  {
    hide ListRows, C.EncodeCursor, KeyLess;
    keys := [];
    if chain != [] {
      var front, last := chain[..|chain| - 1], chain[|chain| - 1];
      var before := ChainAdvances(digest, limit, front, tables[..|chain| - 1]);
      var k := if front == [] then FIRST else before[|before| - 1];
      assert tables[|chain| - 1] in tables;
      assert last.cursor == NextOf(front);
      var n := NextAdvances(digest, tables[|chain| - 1], last.cursor, limit, k);
      keys := before + [n];
      if last.listing.nextCursor.Some? {
        forall i | 0 <= i < |before| ensures KeyLess(before[i], n) {
          if i < |before| - 1 { KeyLessTransitive(before[i], k, n); }
        }
      }
    }
  }

  /** Against the service, the cursor of the next page was never seen before in the chain. */
  lemma ServiceNeverLoops(
    digest: C.Digest, limit: nat, chain: seq<Accepted>, tables: seq<seq<Row>>, rows: seq<Row>, next: Accepted)
    requires Linked(chain + [next]) && limit >= 1 && FromServer(digest, limit, chain + [next], tables + [rows])
    requires Ascending(rows) && forall t <- tables :: Ascending(t)
    ensures next.listing.nextCursor.Some? ==> forall a <- chain :: a.listing.nextCursor != next.listing.nextCursor
    ensures next.listing.isValue == next.listing.nextCursor.Some?
  {
    var longer := chain + [next];
    var keys := ChainAdvances(digest, limit, longer, tables + [rows]);
    assert ListRows(digest, (tables + [rows])[|chain|], longer[|chain|].cursor, limit) == Some(next.listing);
    hide ListRows, Linked, FromServer, KeyLess, C.EncodeCursor;
    if next.listing.nextCursor.Some? {
      forall a | a in chain ensures a.listing.nextCursor != next.listing.nextCursor {
        var i :| 0 <= i < |chain| && chain[i] == a;
        assert longer[i] == a && longer[|chain|] == next;
        assert KeyLess(keys[i], keys[|chain|]);
        KeyLessTotal(keys[i], keys[|chain|]);
        if C.EncodeCursor(digest, keys[i].0, keys[i].1) == C.EncodeCursor(digest, keys[|chain|].0, keys[|chain|].1) {
          C.CursorInjective(digest, keys[i], keys[|chain|]);
        }
      }
    }
  }

  /** Page i + 1 was asked for with the cursor of page i. */
  predicate Leads(chain: seq<Accepted>, i: nat)
    requires i < |chain| - 1
  {
    chain[i].listing.nextCursor.Some? && chain[i + 1].cursor == chain[i].listing.nextCursor
  }

  /** A chain served from a growing table is a walk over it. */
  lemma {:induction false} ChainIsWalk(
    digest: C.Digest, limit: nat, chain: seq<Accepted>, tables: seq<seq<Row>>, cursor: Option<string>)
    requires FromServer(digest, limit, chain, tables)
    requires chain != [] ==> chain[0].cursor == cursor
    requires forall i :: 0 <= i < |chain| - 1 ==> Leads(chain, i)
    ensures ListingsOf(chain) == Walk(digest, tables, cursor, limit)
  {
    hide ListRows;
    if chain != [] {
      if |chain| == 1 {
        assert tables[1..] == [];
      } else {
        assert Leads(chain, 0);
        forall i | 0 <= i < |chain[1..]| - 1 ensures Leads(chain[1..], i) { assert Leads(chain, i + 1); }
        ChainIsWalk(digest, limit, chain[1..], tables[1..], chain[1].cursor);
      }
    }
  }

  lemma {:induction false} LinkedSteps(chain: seq<Accepted>)
    requires Linked(chain)
    ensures chain != [] ==> chain[0].cursor == None
    ensures forall i :: 0 <= i < |chain| - 1 ==> Leads(chain, i)
  {
    if chain != [] {
      var front := chain[..|chain| - 1];
      LinkedSteps(front);
      forall i | 0 <= i < |chain| - 1 ensures Leads(chain, i) {
        if i < |front| - 1 { assert Leads(front, i); }
      }
    }
  }

  /**
   * What the client shows of a growing table: rows in key order, none twice, and every row that was
   * there at the first request once there is nothing more to load.
   */
  lemma ShownRows(digest: C.Digest, limit: nat, chain: seq<Accepted>, tables: seq<seq<Row>>)
    requires chain != [] && Linked(chain) && limit >= 1
    requires FromServer(digest, limit, chain, tables) && Growing(tables)
    ensures Enumerates(tables, FIRST, ListingsOf(chain))
    ensures NextOf(chain) == None ==> Finished(ListingsOf(chain))
  {
    LinkedSteps(chain);
    ChainIsWalk(digest, limit, chain, tables, None);
    hide Walk, Enumerates, Growing, Linked, Leads, ListRows, ListingsOf;
    SameCount(digest, limit, chain, tables);
    WalkEnumerates(digest, tables, None, limit, FIRST);
    LastListing(chain);
  }

  lemma SameCount(digest: C.Digest, limit: nat, chain: seq<Accepted>, tables: seq<seq<Row>>)
    requires FromServer(digest, limit, chain, tables)
    ensures |tables| == |chain|
  {
  }

  lemma {:induction false} LastListing(chain: seq<Accepted>)
    requires chain != []
    ensures ListingsOf(chain) != [] && ListingsOf(chain)[|ListingsOf(chain)| - 1] == chain[|chain| - 1].listing
  {
    if |chain| > 1 { LastListing(chain[1..]); }
  }

  // ---- the hook

  /** The request that a response may still be merged for. */
  predicate IsCurrent(p: Pending, sequence: nat, aborted: set<nat>, active: string) {
    p.sequence !in aborted && p.sequence == sequence && p.resource == active
  }

  predicate InvalidCursor(listing: Listing, seen: set<string>) {
    listing.nextCursor.Some? != listing.isValue || (listing.nextCursor.Some? && listing.nextCursor.value in seen)
  }

  /** What is shown is the chain of merged pages, with the cursor to go on and those seen. */
  ghost predicate Shows(chain: seq<Accepted>, items: seq<Row>, nextCursor: Option<string>, seen: set<string>) {
    items == Items(ListingsOf(chain)) && Linked(chain) && nextCursor == NextOf(chain) && SeenIn(seen, chain)
  }

  /** A request that starts over, or asks for the page after the last one merged. */
  predicate Expected(p: Pending, empty: bool, nextCursor: Option<string>) {
    if p.reset then empty && p.cursor == None else p.cursor.Some? && p.cursor == nextCursor
  }

  /** Requests have different numbers, and the one with the latest is for this resource and expected. */
  ghost predicate OneExpected(
    inFlight: set<Pending>, sequence: nat, resource: string, empty: bool, nextCursor: Option<string>)
  {
    && (forall p <- inFlight :: p.sequence <= sequence)
    && (forall p <- inFlight :: p.sequence == sequence ==> p.resource == resource && Expected(p, empty, nextCursor))
    && (forall p, q | p in inFlight && q in inFlight && p.sequence == q.sequence :: p == q)
  }

  lemma NoneExpected(
    inFlight: set<Pending>, sequence: nat, resource: string, empty: bool, nextCursor: Option<string>,
    name: string, empty1: bool, nextCursor1: Option<string>)
    requires OneExpected(inFlight, sequence, resource, empty, nextCursor)
    ensures OneExpected(inFlight, sequence + 1, name, empty1, nextCursor1)
    ensures forall p <- inFlight :: p.sequence <= sequence
  {
    hide Expected;
  }

  lemma ExpectedAdded(inFlight: set<Pending>, p: Pending, empty: bool, nextCursor: Option<string>)
    requires OneExpected(inFlight, p.sequence, p.resource, empty, nextCursor) && Expected(p, empty, nextCursor)
    requires forall q <- inFlight :: q.sequence < p.sequence
    ensures OneExpected(inFlight + {p}, p.sequence, p.resource, empty, nextCursor)
  {
    hide Expected;
  }

  lemma ExpectedTaken(
    inFlight: set<Pending>, sequence: nat, resource: string, empty: bool, nextCursor: Option<string>, p: Pending)
    requires OneExpected(inFlight, sequence, resource, empty, nextCursor) && p in inFlight
    ensures OneExpected(inFlight - {p}, sequence, resource, empty, nextCursor)
    ensures p.sequence == sequence ==>
              && Expected(p, empty, nextCursor) && p.resource == resource
              && forall empty1, nextCursor1 :: OneExpected(inFlight - {p}, sequence, resource, empty1, nextCursor1)
  {
    hide Expected;
  }

  /** Of which resource each page of the chain is. */
  function ResourcesOf(chain: seq<Accepted>): seq<string> {
    seq(|chain|, i requires 0 <= i < |chain| => chain[i].resource)
  }

  /** Merging one page: of which resources the pages shown are then, and whether they are mixed. */
  lemma ResourcesGrow(chain: seq<Accepted>, a: Accepted)
    ensures ResourcesOf(chain + [a]) == ResourcesOf(chain) + [a.resource]
    ensures S.Mixed(ResourcesOf(chain + [a]))
            <==> S.Mixed(ResourcesOf(chain)) || (chain != [] && chain[|chain| - 1].resource != a.resource)
  {
    assert ResourcesOf(chain + [a]) == ResourcesOf(chain) + [a.resource];
    S.MixedOneMore(ResourcesOf(chain), a.resource);
  }

  ghost predicate AllBelow(numbers: set<nat>, sequence: nat) { forall n <- numbers :: n < sequence }

  ghost predicate Awaited(inFlight: set<Pending>, sequence: nat) { exists p <- inFlight :: p.sequence == sequence }

  lemma AwaitedAdded(inFlight: set<Pending>, p: Pending)
    ensures Awaited(inFlight + {p}, p.sequence)
  {
    assert p in inFlight + {p};
  }

  /** After another number was drawn nothing is awaited until it is used. */
  lemma NothingAwaited(inFlight: set<Pending>, sequence: nat)
    requires forall q <- inFlight :: q.sequence <= sequence
    ensures !Awaited(inFlight, sequence + 1)
  {
  }

  lemma StartPicture(resource: string, online: bool)
    ensures S.Run([S.Flag(online), S.Change(resource)]) == S.Picture(resource, online, [], online)
  {
    S.RunOneMore([], S.Flag(online));
    S.RunOneMore([S.Flag(online)], S.Change(resource));
    assert [] + [S.Flag(online)] == [S.Flag(online)];
    assert [S.Flag(online)] + [S.Change(resource)] == [S.Flag(online), S.Change(resource)];
  }

  lemma AwaitedTaken(
    inFlight: set<Pending>, sequence: nat, resource: string, empty: bool, nextCursor: Option<string>, p: Pending)
    requires OneExpected(inFlight, sequence, resource, empty, nextCursor) && p in inFlight
    ensures Awaited(inFlight - {p}, sequence) == (Awaited(inFlight, sequence) && p.sequence != sequence)
    ensures p.sequence == sequence ==> Awaited(inFlight, sequence)
    ensures forall aborted | AllBelow(aborted, sequence) ::
              IsCurrent(p, sequence, aborted, resource) <==> p.sequence == sequence
  {
    hide Expected;
    if p.sequence != sequence && Awaited(inFlight, sequence) {
      var q :| q in inFlight && q.sequence == sequence;
      assert q in inFlight - {p};
    }
  }

  class CursorPages {
    var online: bool
    var resource: string
    var activeResource: string
    var sequence: nat
    var controller: Option<nat>
    var aborted: set<nat>
    var seen: set<string>
    var items: seq<Row>
    var nextCursor: Option<string>
    var loadingMore: bool
    var failed: bool
    var status: Status
    var inFlight: set<Pending>
    /** The pages merged since the items were last emptied. */
    ghost var chain: seq<Accepted>
    /** What happened to it so far. */
    ghost var events: seq<S.Event>

    /** What these events are about. */
    ghost function Picture(): S.Picture
      reads this
    {
      S.Picture(resource, online, ResourcesOf(chain), Awaited(inFlight, sequence))
    }

    ghost predicate Valid()
      reads this
    {
      Sound() && Picture() == S.Run(events)
    }

    ghost predicate Sound()
      reads this
    {
      && Shows(chain, items, nextCursor, seen)
      && activeResource == resource
      && AllBelow(aborted, sequence)
      && (controller.Some? ==> controller.value <= sequence)
      && OneExpected(inFlight, sequence, resource, chain == [], nextCursor)
    }

    constructor (resource: string, online: bool)
      ensures Valid() && chain == [] && items == [] && this.resource == resource && this.online == online
      ensures seen == {} && events == [S.Flag(online), S.Change(resource)]
      ensures online ==> sequence == 1 && Pending(1, None, true, resource) in inFlight
    {
      this.online, this.resource, activeResource := online, resource, resource;
      sequence, controller, aborted, seen := if online then 1 else 0, if online then Some(1) else None, {}, {};
      items, nextCursor, loadingMore, failed := [], None, false, false;
      status := if online then Loading else Offline;
      inFlight := if online then {Pending(1, None, true, resource)} else {};
      chain, events := [], [S.Flag(online), S.Change(resource)];
      StartPicture(resource, online);
      AwaitedAdded({}, Pending(1, None, true, resource));
    }

    /** Abandons the request under way and takes the next number. */
    method Supersede()
      requires AllBelow(aborted, sequence) && (controller.Some? ==> controller.value <= sequence)
      modifies this`sequence, this`aborted
      ensures sequence == old(sequence) + 1 && AllBelow(aborted, sequence)
      ensures aborted == if controller.Some? then old(aborted) + {controller.value} else old(aborted)
    {
      if controller.Some? {
        aborted := aborted + {controller.value};
      }
      sequence := sequence + 1;
    }

    /** Forgets what was shown. */
    method Empty()
      modifies this`seen, this`items, this`nextCursor, this`loadingMore, this`failed, this`status, this`chain
      ensures Shows(chain, items, nextCursor, seen) && chain == [] && items == [] && nextCursor == None
      ensures ResourcesOf(chain) == []
      ensures status == (if online then Loading else Offline) && !loadingMore
    {
      NothingShown();
      seen, items, nextCursor, loadingMore, failed := {}, [], None, false, false;
      status := if online then Loading else Offline;
      chain := [];
    }

    /** Adds a page to what is shown. */
    method MergePage(p: Pending, listing: Listing)
      requires Shows(chain, items, nextCursor, seen) && Expected(p, chain == [], nextCursor)
      modifies this`seen, this`items, this`nextCursor, this`loadingMore, this`failed, this`status, this`chain
      ensures Shows(chain, items, nextCursor, seen)
      ensures chain == old(chain) + [Accepted(p.resource, p.cursor, listing)]
      ensures ResourcesOf(chain) == ResourcesOf(old(chain)) + [p.resource]
      ensures S.Mixed(ResourcesOf(chain))
              <==> old(S.Mixed(ResourcesOf(chain)) || (chain != [] && chain[|chain| - 1].resource != p.resource))
      ensures items == old(items) + listing.items && nextCursor == listing.nextCursor
      ensures status == Ready && !loadingMore && !failed
      ensures seen == old(seen) + (if nextCursor.Some? then {nextCursor.value} else {})
    {
      hide Shows, ResourcesOf, S.Mixed;
      ResourcesGrow(chain, Accepted(p.resource, p.cursor, listing));
      Merge(chain, items, nextCursor, seen, p, listing);
      if listing.nextCursor.Some? {
        seen := seen + {listing.nextCursor.value};
      }
      items := if p.reset then listing.items else items + listing.items;
      chain := chain + [Accepted(p.resource, p.cursor, listing)];
      failed, loadingMore, nextCursor, status := false, false, listing.nextCursor, Ready;
    }

    /** The request failed; what was shown stays, and is marked stale. */
    method GiveUp()
      modifies this`failed, this`loadingMore, this`status
      ensures failed && !loadingMore && status == if items == [] then Failing else Stale
    {
      failed, loadingMore, status := true, false, if items == [] then Failing else Stale;
    }

    /** Draws a number for a request and sends it. */
    method Send(cursor: Option<string>, reset: bool)
      requires Sound() && online && (if reset then cursor == None else cursor.Some? && cursor == nextCursor)
      modifies this
      ensures Sound() && resource == old(resource) && online && events == old(events)
      ensures Awaited(inFlight, sequence) && sequence == old(sequence) + 1
      ensures inFlight == old(inFlight) + {Pending(sequence, cursor, reset, resource)}
      ensures reset ==>
                && chain == [] && ResourcesOf(chain) == [] && items == [] && nextCursor == None && status == Loading
      ensures !reset ==>
                && chain == old(chain) && items == old(items) && nextCursor == old(nextCursor)
                && loadingMore && seen == old(seen)
    {
      hide Shows, OneExpected, S.Run, Awaited, AllBelow, ResourcesOf;
      NoneExpected(inFlight, sequence, resource, chain == [], nextCursor, resource, chain == [] || reset,
                   if reset then None else nextCursor);
      Supersede();
      controller := Some(sequence);
      if reset {
        Empty();
      } else {
        failed, loadingMore := false, true;
      }
      ExpectedAdded(inFlight, Pending(sequence, cursor, reset, resource), chain == [], nextCursor);
      AwaitedAdded(inFlight, Pending(sequence, cursor, reset, resource));
      inFlight := inFlight + {Pending(sequence, cursor, reset, resource)};
    }

    /** Asks for a page; starting over empties what was shown, unless the connection is down. */
    method Request(cursor: Option<string>, reset: bool)
      requires Sound() && (if reset then cursor == None else cursor.Some? && cursor == nextCursor)
      modifies this
      ensures Sound() && resource == old(resource) && online == old(online) && events == old(events)
      ensures Picture() == if !online then old(Picture())
                           else if reset then S.Picture(resource, online, [], true)
                           else old(Picture()).(awaited := true)
      ensures !online ==>
                && status == Offline && items == old(items) && nextCursor == old(nextCursor) && chain == old(chain)
                && sequence == old(sequence)
                && loadingMore == old(loadingMore) && seen == old(seen) && inFlight == old(inFlight)
      ensures online ==>
                && sequence == old(sequence) + 1
                && inFlight == old(inFlight) + {Pending(sequence, cursor, reset, resource)}
                && (reset ==> chain == [] && items == [] && nextCursor == None && status == Loading)
                && (!reset ==>
                      && chain == old(chain) && items == old(items) && nextCursor == old(nextCursor)
                      && loadingMore && seen == old(seen))
    {
      hide Shows, OneExpected, S.Run, Awaited, AllBelow, ResourcesOf;
      activeResource := resource;
      if !online {
        status := Offline;
        return;
      }
      Send(cursor, reset);
    }

    /**
     * A response arrives. One that is not for the latest request changes nothing that is shown; a
     * page is merged unless its cursor is invalid or was seen before.
     */
    method Receive(p: Pending, response: Response) returns (merged: bool)
      requires Valid() && p in inFlight
      modifies this
      ensures Valid() && inFlight == old(inFlight) - {p} && resource == old(resource) && sequence == old(sequence)
      ensures merged <==> old(IsCurrent(p, sequence, aborted, activeResource))
                          && response.Arrived? && !InvalidCursor(response.listing, old(seen))
      ensures merged ==>
                && chain == old(chain) + [Accepted(p.resource, p.cursor, response.listing)]
                && items == old(items) + response.listing.items && nextCursor == response.listing.nextCursor
                && seen == old(seen) + (if nextCursor.Some? then {nextCursor.value} else {})
      ensures !merged ==> items == old(items) && nextCursor == old(nextCursor) && chain == old(chain)
      ensures !old(IsCurrent(p, sequence, aborted, activeResource)) ==>
                status == old(status) && failed == old(failed) && loadingMore == old(loadingMore)
      ensures old(IsCurrent(p, sequence, aborted, activeResource)) ==>
                && failed == !merged && !loadingMore && (!merged ==> seen == old(seen))
                && status == (if merged then Ready else if old(items) == [] then Failing else Stale)
      ensures online == old(online)
      ensures merged ==> (S.Mixed(ResourcesOf(chain))
                          <==> old(S.Mixed(ResourcesOf(chain))
                                   || (!p.reset && chain != [] && chain[|chain| - 1].resource != resource)))
      ensures events == old(events) + if merged then [S.Merge]
                                      else if old(IsCurrent(p, sequence, aborted, activeResource)) then [S.Lose]
                                      else []
    {
      hide Shows, OneExpected, S.Run, S.Mixed, Awaited, ResourcesOf, Expected, AllBelow, IsCurrent;
      ExpectedTaken(inFlight, sequence, resource, chain == [], nextCursor, p);
      AwaitedTaken(inFlight, sequence, resource, chain == [], nextCursor, p);
      ChainStarted(chain, items, nextCursor, seen, p);
      inFlight := inFlight - {p};
      if !IsCurrent(p, sequence, aborted, activeResource) {
        return false;
      }
      if response.Lost? || InvalidCursor(response.listing, seen) {
        GiveUp();
        S.RunOneMore(events, S.Lose);
        events := events + [S.Lose];
        return false;
      }
      S.RunOneMore(events, S.Merge);
      hide InvalidCursor;
      MergePage(p, response.listing);
      events := events + [S.Merge];
      return true;
    }

    /** Another resource is shown from now on: its first page is asked for. */
    method ChangeResource(name: string)
      requires Valid()
      modifies this
      ensures Valid() && resource == name && online == old(online)
      ensures events == old(events) + [S.Change(name)]
      ensures online ==>
                && chain == [] && items == [] && nextCursor == None && status == Loading
                && inFlight == old(inFlight) + {Pending(sequence, None, true, name)}
      ensures old(sequence) < sequence
      ensures !online ==>
                && chain == old(chain) && items == old(items) && nextCursor == old(nextCursor) && status == Offline
                && inFlight == old(inFlight) && loadingMore == old(loadingMore) && seen == old(seen)
    {
      hide Shows, OneExpected, S.Run, Awaited, AllBelow, ResourcesOf;
      NoneExpected(inFlight, sequence, resource, chain == [], nextCursor, name, chain == [], nextCursor);
      NothingAwaited(inFlight, sequence);
      S.RunOneMore(events, S.Change(name));
      Supersede();
      resource, activeResource := name, name;
      Request(None, true);
      events := events + [S.Change(name)];
    }

    /** The browser noticed that the connection went; the event may come later than the flag. */
    method WentOffline()
      requires Valid()
      modifies this
      ensures Valid() && status == Offline && !loadingMore && items == old(items) && chain == old(chain)
      ensures nextCursor == old(nextCursor) && resource == old(resource) && online == old(online)
      ensures inFlight == old(inFlight) && sequence == old(sequence) + 1 && !failed
      ensures seen == old(seen) && events == old(events) + [S.Dropped]
    {
      hide Shows, OneExpected, S.Run, Awaited, AllBelow, ResourcesOf;
      NoneExpected(inFlight, sequence, resource, chain == [], nextCursor, resource, chain == [], nextCursor);
      NothingAwaited(inFlight, sequence);
      S.RunOneMore(events, S.Dropped);
      Supersede();
      failed, loadingMore, status := false, false, Offline;
      events := events + [S.Dropped];
    }

    method SetOnline(flag: bool)
      requires Valid()
      modifies this`online, this`events
      ensures Valid() && online == flag && events == old(events) + [S.Flag(flag)]
    {
      hide Shows, OneExpected, S.Run, Awaited, AllBelow, ResourcesOf;
      S.RunOneMore(events, S.Flag(flag));
      online, events := flag, events + [S.Flag(flag)];
    }

    /** The online event and the user's refresh both start over. */
    method Refresh()
      requires Valid()
      modifies this
      ensures Valid() && resource == old(resource) && online == old(online)
      ensures online ==>
                && chain == [] && items == [] && nextCursor == None && status == Loading
                && sequence == old(sequence) + 1
                && inFlight == old(inFlight) + {Pending(sequence, None, true, resource)}
      ensures !online ==>
                && chain == old(chain) && items == old(items) && nextCursor == old(nextCursor) && status == Offline
                && sequence == old(sequence) && inFlight == old(inFlight)
      ensures events == old(events) + [S.StartOver]
    {
      hide Shows, OneExpected, S.Run, Awaited, AllBelow, ResourcesOf;
      S.RunOneMore(events, S.StartOver);
      Request(None, true);
      events := events + [S.StartOver];
    }

    method LoadMore()
      requires Valid()
      modifies this
      ensures Valid() && chain == old(chain) && items == old(items) && resource == old(resource)
      ensures nextCursor == old(nextCursor) && online == old(online)
      ensures old(loadingMore) || nextCursor.None? || nextCursor.value == "" || !online ==>
                inFlight == old(inFlight) && sequence == old(sequence)
      ensures seen == old(seen)
      ensures events == old(events)
                        + if old(loadingMore) || nextCursor.None? || nextCursor.value == "" then [] else [S.Ask]
      ensures !old(loadingMore) && nextCursor.Some? && nextCursor.value != "" && online ==>
                && sequence == old(sequence) + 1
                && inFlight == old(inFlight) + {Pending(sequence, nextCursor, false, resource)}
    {
      hide Shows, OneExpected, S.Run, Awaited, AllBelow;
      if nextCursor.Some? && nextCursor.value != "" && !loadingMore {
        S.RunOneMore(events, S.Ask);
        ChainStarted(chain, items, nextCursor, seen, Pending(0, nextCursor, false, resource));
        Request(nextCursor, false);
        events := events + [S.Ask];
      }
    }

    /** A current response that the service gave is always merged: its cursor never repeats. */
    method ReceiveFromService(
      p: Pending, listing: Listing, ghost digest: C.Digest, ghost limit: nat, ghost tables: seq<seq<Row>>,
      ghost rows: seq<Row>)
      returns (merged: bool)
      requires Valid() && p in inFlight && limit >= 1
      requires FromServer(digest, limit, chain, tables) && Ascending(rows) && forall t <- tables :: Ascending(t)
      requires ListRows(digest, rows, p.cursor, limit) == Some(listing)
      modifies this
      ensures Valid()
      ensures merged <==> old(IsCurrent(p, sequence, aborted, activeResource))
      ensures merged ==> items == old(items) + listing.items && FromServer(digest, limit, chain, tables + [rows])
      ensures !merged ==> items == old(items) && FromServer(digest, limit, chain, tables)
    {
      hide Shows, ListRows, Linked, FromServer, Ascending;
      var next := Accepted(p.resource, p.cursor, listing);
      if IsCurrent(p, sequence, aborted, activeResource) {
        assert Expected(p, chain == [], nextCursor);
        ExpectedLinks(chain, items, nextCursor, seen, p, listing);
        ServedGrows(digest, limit, chain, tables, rows, next);
        ServiceNeverLoops(digest, limit, chain, tables, rows, next);
      }
      merged := Receive(p, Arrived(listing));
    }
  }

  /** Only the latest request's response counts; its cursor must be flagged truthfully and be new to the chain. */
  lemma MergesExactly(client: CursorPages, p: Pending, listing: Listing)
    requires client.Valid() && p in client.inFlight
    ensures IsCurrent(p, client.sequence, client.aborted, client.activeResource) <==> p.sequence == client.sequence
    ensures !InvalidCursor(listing, client.seen)
            <==> && (listing.nextCursor.Some? <==> listing.isValue)
                 && forall a <- client.chain :: listing.nextCursor.Some? ==> a.listing.nextCursor != listing.nextCursor
  {
    AwaitedTaken(client.inFlight, client.sequence, client.resource, client.chain == [], client.nextCursor, p);
    hide S.Run, OneExpected, Linked, Items;
  }

  lemma NothingShown()
    ensures Shows([], [], None, {})
  {
  }

  /** There is a page to go on from exactly if one was merged. */
  lemma ChainStarted(chain: seq<Accepted>, items: seq<Row>, nextCursor: Option<string>, seen: set<string>, p: Pending)
    requires Shows(chain, items, nextCursor, seen)
    ensures nextCursor.Some? ==> chain != []
    ensures Expected(p, chain == [], nextCursor) ==> (p.reset <==> chain == [])
  {
  }

  lemma Merge(
    chain: seq<Accepted>, items: seq<Row>, nextCursor: Option<string>, seen: set<string>, p: Pending, listing: Listing)
    requires Shows(chain, items, nextCursor, seen)
    requires if p.reset then chain == [] && p.cursor == None else p.cursor.Some? && p.cursor == nextCursor
    ensures p.reset ==> items == [] && items + listing.items == listing.items
    ensures Shows(chain + [Accepted(p.resource, p.cursor, listing)], items + listing.items, listing.nextCursor,
                  if listing.nextCursor.Some? then seen + {listing.nextCursor.value} else seen)
  {
    var a := Accepted(p.resource, p.cursor, listing);
    LinkGrows(chain, a);
    ListingsGrow(chain, a);
    ItemsGrow(ListingsOf(chain), listing);
    if p.reset { assert Items(ListingsOf([])) == [] && [] + listing.items == listing.items; }
    hide Items, ListingsOf, Linked;
    var now := if listing.nextCursor.Some? then seen + {listing.nextCursor.value} else seen;
    forall x ensures x in now <==> exists b <- chain + [a] :: b.listing.nextCursor == Some(x) {
      if x in seen {
        var b :| b in chain && b.listing.nextCursor == Some(x);
        assert b in chain + [a];
      }
      if listing.nextCursor == Some(x) { assert a in chain + [a]; }
    }
  }

  /** A page asked for as expected extends the chain, and a cursor seen is one of the chain. */
  lemma ExpectedLinks(
    chain: seq<Accepted>, items: seq<Row>, nextCursor: Option<string>, seen: set<string>, p: Pending, listing: Listing)
    requires Shows(chain, items, nextCursor, seen)
    requires if p.reset then chain == [] && p.cursor == None else p.cursor.Some? && p.cursor == nextCursor
    ensures Linked(chain + [Accepted(p.resource, p.cursor, listing)])
    ensures forall x <- seen :: exists a <- chain :: a.listing.nextCursor == Some(x)
  {
    LinkGrows(chain, Accepted(p.resource, p.cursor, listing));
  }

  lemma ServedGrows(
      digest: C.Digest, limit: nat, chain: seq<Accepted>, tables: seq<seq<Row>>, rows: seq<Row>, next: Accepted)
    requires FromServer(digest, limit, chain, tables)
    requires ListRows(digest, rows, next.cursor, limit) == Some(next.listing)
    ensures FromServer(digest, limit, chain + [next], tables + [rows])
  {
    hide ListRows;
  }

  /** Pages of two resources are shown together exactly after the story that mixes them. */
  lemma ResourcesMixExactly(client: CursorPages)
    requires client.Valid()
    ensures S.Mixed(ResourcesOf(client.chain))
            <==> exists i, c, f, j, k :: S.Story(client.events, i, c, f, j, k)
  {
    S.MixedExactly(client.events);
  }

  /** A page shown is of another resource than the chosen one only if that changed while offline since. */
  lemma OtherResource(client: CursorPages, p: nat)
    requires client.Valid() && p < |client.chain| && client.chain[p].resource != client.resource
    ensures exists c ::
              && 0 <= c < |client.events| && S.ChangesOffline(S.At(client.events, c), client.events[c])
              && S.Kept(client.events, c, |client.events|)
  {
    assert ResourcesOf(client.chain)[p] == client.chain[p].resource;
    var c := S.OfThisResource(client.events, p);
  }

  /**
   * The resource changes while the connection is down, and more is loaded after the flag came back but
   * before the online event.
   */
  method ResourcesMix(a: string, b: string, first: Listing, second: Listing) returns (client: CursorPages)
    requires a != b
    requires first.nextCursor.Some? && first.nextCursor.value != "" && first.isValue
    requires second.nextCursor.None? && !second.isValue
    ensures fresh(client) && client.Valid() && client.resource == b
    ensures client.items == first.items + second.items && client.status == Ready
    ensures client.chain == [Accepted(a, None, first), Accepted(b, first.nextCursor, second)]
  {
    hide Shows, OneExpected, S.Run, Awaited;
    client := new CursorPages(a, true);
    var merged := client.Receive(Pending(1, None, true, a), Arrived(first));
    client.SetOnline(false);
    client.WentOffline();
    client.ChangeResource(b);
    client.SetOnline(true);
    client.LoadMore();
    merged := client.Receive(Pending(client.sequence, first.nextCursor, false, b), Arrived(second));
  }
}
