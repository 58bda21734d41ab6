/** Keyset pagination over a table that grows while its pages are walked. */
module KeysetPages {
  import opened Wrappers
  import opened Sorting
  import opened Text
  import C = CursorCodec

  type Key = (string, string)

  datatype Row = Row(sortValue: string, uid: string, content: string)

  function KeyOf(r: Row): Key { (r.sortValue, r.uid) }

  /** The order of the index: by sort value, then by identifier. */
  predicate KeyLess(a: Key, b: Key) {
    a != b && if a.0 == b.0 then StringLeq(a.1, b.1) else StringLeq(a.0, b.0)
  }

  lemma KeyLessTotal(a: Key, b: Key)
    ensures a == b || KeyLess(a, b) || KeyLess(b, a)
    ensures !(KeyLess(a, b) && KeyLess(b, a))
  {
    StringOrder();
    hide StringLeq;
  }

  lemma KeyLessTransitive(a: Key, b: Key, c: Key)
    requires KeyLess(a, b) && KeyLess(b, c)
    ensures KeyLess(a, c)
  {
    StringOrder();
    hide StringLeq;
  }

  /** A table as its index presents it: ascending, each key once. */
  ghost predicate Ascending(rows: seq<Row>) {
    forall i, j :: 0 <= i < j < |rows| ==> KeyLess(KeyOf(rows[i]), KeyOf(rows[j]))
  }

  function After(rows: seq<Row>, k: Key): seq<Row> {
    if rows == [] then []
    else (if KeyLess(k, KeyOf(rows[0])) then [rows[0]] else []) + After(rows[1..], k)
  }

  // ---- one page

  datatype Page = Page(items: seq<Row>, next: Option<Key>)

  /** One row more than the limit is fetched; it tells that there is more and is not shown. */
  function PageOf(found: seq<Row>, limit: nat): Page {
    var fetched := if |found| > limit + 1 then found[..limit + 1] else found;
    var visible := if |fetched| > limit then fetched[..limit] else fetched;
    Page(visible, if |fetched| > limit && visible != [] then Some(KeyOf(visible[|visible| - 1])) else None)
  }

  function PageAfter(rows: seq<Row>, k: Key, limit: nat): Page { PageOf(After(rows, k), limit) }

  const FIRST: Key := ("", "")

  datatype Listing = Listing(items: seq<Row>, nextCursor: Option<string>, isValue: bool)

  /** A list query: from the start or from a cursor, which must be one this service made. */
  function ListRows(digest: C.Digest, rows: seq<Row>, cursor: Option<string>, limit: nat): Option<Listing> {
    var after := if cursor.None? then Some(FIRST) else C.DecodeCursor(digest, cursor.value);
    if after.None? then None
    else
      var page := PageAfter(rows, after.value, limit);
      var next := if page.next.None? then None else Some(C.EncodeCursor(digest, page.next.value.0, page.next.value.1));
      Some(Listing(page.items, next, next.Some?))
  }

  /** Each row of the table beyond k is found, and each row found is one. */
  ghost predicate Finds(rows: seq<Row>, k: Key, found: seq<Row>) {
    forall r :: r in found <==> r in rows && KeyLess(k, KeyOf(r))
  }

  lemma {:induction false} AfterExactly(rows: seq<Row>, k: Key)
    requires Ascending(rows)
    ensures Ascending(After(rows, k))
    ensures Finds(rows, k, After(rows, k))
  {
    hide KeyLess;
    if rows != [] {
      AfterExactly(rows[1..], k);
      assert rows == [rows[0]] + rows[1..];
      forall r | r in rows[1..] ensures KeyLess(KeyOf(rows[0]), KeyOf(r)) {
        var j :| 0 <= j < |rows[1..]| && rows[1..][j] == r;
        assert rows[j + 1] == r;
      }
    }
  }

  /** The rows that a page shows lie beyond its start, in order, and up to where it ends it misses none. */
  ghost predicate Covers(rows: seq<Row>, k: Key, page: Page) {
    && Ascending(page.items)
    && (forall r <- page.items :: r in rows && KeyLess(k, KeyOf(r)))
    && (page.next.Some? ==>
          page.items != [] && KeyOf(page.items[|page.items| - 1]) == page.next.value && KeyLess(k, page.next.value))
    && (forall r <- rows :: KeyLess(k, KeyOf(r)) ==>
          r in page.items || (page.next.Some? && KeyLess(page.next.value, KeyOf(r))))
  }

  lemma PageIsPrefix(found: seq<Row>, limit: nat)
    requires Ascending(found) && limit >= 1
    ensures var page := PageOf(found, limit);
            && page.items == (if |found| > limit then found[..limit] else found)
            && (page.next.Some? <==> |found| > limit)
            && (page.next.Some? ==> page.items != [] && KeyOf(page.items[|page.items| - 1]) == page.next.value)
            && forall j :: |page.items| <= j < |found| ==> page.next.Some? && KeyLess(page.next.value, KeyOf(found[j]))
  {
    hide KeyLess;
  }

  /** A row found beyond the start is shown, or lies beyond the end of the page. */
  lemma PageMissesNone(found: seq<Row>, limit: nat, r: Row)
    requires Ascending(found) && limit >= 1 && r in found
    ensures var page := PageOf(found, limit);
            r in page.items || (page.next.Some? && KeyLess(page.next.value, KeyOf(r)))
  {
    PageIsPrefix(found, limit);
    hide KeyLess, Ascending, PageOf;
    var j :| 0 <= j < |found| && found[j] == r;
    if j < |PageOf(found, limit).items| { assert PageOf(found, limit).items[j] == r; }
  }

  lemma FoundRow(rows: seq<Row>, k: Key, found: seq<Row>, r: Row)
    requires Finds(rows, k, found)
    ensures r in found <==> r in rows && KeyLess(k, KeyOf(r))
  {
  }

  lemma PageCovers(rows: seq<Row>, k: Key, limit: nat)
    requires Ascending(rows) && limit >= 1
    ensures Covers(rows, k, PageAfter(rows, k, limit))
  {
    AfterExactly(rows, k);
    hide KeyLess, After, PageOf, Ascending, Finds;
    var found, page := After(rows, k), PageAfter(rows, k, limit);
    PageIsPrefix(found, limit);
    PrefixAscends(found, page.items);
    forall r | r in page.items ensures r in rows && KeyLess(k, KeyOf(r)) { FoundRow(rows, k, found, r); }
    forall r | r in rows && KeyLess(k, KeyOf(r))
      ensures r in page.items || (page.next.Some? && KeyLess(page.next.value, KeyOf(r)))
    {
      FoundRow(rows, k, found, r);
      PageMissesNone(found, limit, r);
    }
    if page.next.Some? { assert page.items[|page.items| - 1] in page.items; }
  }

  lemma PrefixAscends(found: seq<Row>, items: seq<Row>)
    requires Ascending(found) && items <= found
    ensures Ascending(items) && forall r <- items :: r in found
  {
    hide KeyLess;
  }

  /** A page goes on exactly if a row lies beyond it, and then it is full; it never shows more than the limit. */
  lemma PageFills(rows: seq<Row>, k: Key, limit: nat)
    requires Ascending(rows) && limit >= 1
    ensures var page := PageAfter(rows, k, limit);
            && |page.items| <= limit
            && (page.next.Some? ==> |page.items| == limit)
            && (page.next.Some? <==> exists r <- rows :: KeyLess(k, KeyOf(r)) && r !in page.items)
  {
    AfterExactly(rows, k);
    var found, page := After(rows, k), PageAfter(rows, k, limit);
    PageIsPrefix(found, limit);
    if |found| > limit {
      FoundRow(rows, k, found, found[limit]);
      forall i | 0 <= i < |page.items| ensures page.items[i] != found[limit] { DifferentRows(found, i, limit); }
    }
    hide KeyLess, After, PageOf, Ascending;
    forall r | r in rows && KeyLess(k, KeyOf(r)) ensures r in found { FoundRow(rows, k, found, r); }
  }

  lemma DifferentRows(rows: seq<Row>, i: nat, j: nat)
    requires Ascending(rows) && i < j < |rows|
    ensures rows[i] != rows[j]
  {
    assert KeyLess(KeyOf(rows[i]), KeyOf(rows[j]));
  }

  /**
   * Without a cursor the listing starts at the beginning; a cursor of other strings than a position with its
   * checksum is refused.
   */
  lemma ListingRefused(digest: C.Digest, rows: seq<Row>, cursor: Option<string>, items: seq<string>, limit: nat)
    requires cursor.Some? ==> items != [] && cursor.value == C.WriteCursor(items)
    ensures ListRows(digest, rows, cursor, limit).None?
            <==> cursor.Some? && (|items| != 3 || items[2] != digest(items[0], items[1]))
    ensures cursor.None? ==> ListRows(digest, rows, cursor, limit).value.items == PageAfter(rows, ("", ""), limit).items
  {
    hide PageAfter, C.DecodeCursor, C.EncodeCursor, C.WriteCursor;
    if cursor.Some? {
      var r := C.DecodeCursor(digest, cursor.value);
      if r.Some? { C.CursorExactly(digest, items, r.value.0, r.value.1); }
      if |items| == 3 {
        C.CursorExactly(digest, items, items[0], items[1]);
        assert items == [items[0], items[1], items[2]];
      }
    }
  }

  /** A page of no rows shows none and does not go on, whatever there is. */
  lemma LimitZeroShowsNothing(rows: seq<Row>, k: Key)
    ensures PageAfter(rows, k, 0) == Page([], None)
  {
    hide After;
  }

  // ---- a walk

  /** The tables that the requests of a walk meet: rows are added between them, never removed. */
  ghost predicate Growing(tables: seq<seq<Row>>) {
    && (forall t <- tables :: Ascending(t))
    && forall i, j, r | 0 <= i <= j < |tables| && r in tables[i] :: r in tables[j]
  }

  /** Follows the cursors until there is none. */
  function Walk(digest: C.Digest, tables: seq<seq<Row>>, cursor: Option<string>, limit: nat): seq<Listing> {
    if tables == [] then []
    else
      var listing := ListRows(digest, tables[0], cursor, limit);
      if listing.None? then []
      else
        [listing.value]
        + if listing.value.nextCursor.None? then [] else Walk(digest, tables[1..], listing.value.nextCursor, limit)
  }

  function Items(walk: seq<Listing>): seq<Row> {
    if walk == [] then [] else walk[0].items + Items(walk[1..])
  }

  predicate Finished(walk: seq<Listing>) { walk != [] && walk[|walk| - 1].nextCursor.None? }

  /** The cursor stands for the position k. */
  ghost predicate StandsFor(digest: C.Digest, cursor: Option<string>, k: Key) {
    if cursor.None? then k == FIRST else cursor.value == C.EncodeCursor(digest, k.0, k.1)
  }

  lemma ListingOfPage(digest: C.Digest, rows: seq<Row>, cursor: Option<string>, limit: nat, k: Key)
    requires StandsFor(digest, cursor, k)
    ensures var listing, page := ListRows(digest, rows, cursor, limit), PageAfter(rows, k, limit);
            && listing.Some? && listing.value.items == page.items
            && (listing.value.nextCursor.Some? <==> page.next.Some?)
            && (page.next.Some? ==> StandsFor(digest, listing.value.nextCursor, page.next.value))
            && listing.value.isValue == listing.value.nextCursor.Some?
  {
    hide PageAfter, C.DecodeCursor, C.EncodeCursor;
    C.CursorRoundTrip(digest, k.0, k.1);
  }

  /** What a walk from k shows: in order, beyond k, of the last table met, and no row of the first missing. */
  ghost predicate Enumerates(tables: seq<seq<Row>>, k: Key, walk: seq<Listing>)
    requires tables != []
  {
    && Ascending(Items(walk))
    && (forall r <- Items(walk) :: KeyLess(k, KeyOf(r)) && r in tables[|tables| - 1])
    && (Finished(walk) ==> forall r <- tables[0] :: KeyLess(k, KeyOf(r)) ==> r in Items(walk))
  }

  lemma AscendingJoin(a: seq<Row>, b: seq<Row>, k: Key)
    requires Ascending(a) && Ascending(b)
    requires a != [] && KeyOf(a[|a| - 1]) == k && forall r <- b :: KeyLess(k, KeyOf(r))
    ensures Ascending(a + b)
  {
    hide KeyLess;
    forall i, j | 0 <= i < j < |a + b| ensures KeyLess(KeyOf((a + b)[i]), KeyOf((a + b)[j])) {
      if i < |a| <= j {
        assert (a + b)[j] in b;
        if i < |a| - 1 { KeyLessTransitive(KeyOf(a[i]), k, KeyOf((a + b)[j])); }
      }
    }
  }

  lemma LastPage(tables: seq<seq<Row>>, k: Key, page: Page)
    requires tables != [] && Growing(tables) && Covers(tables[0], k, page)
    requires page.next.None?
    ensures Ascending(page.items)
    ensures forall r <- page.items :: KeyLess(k, KeyOf(r)) && r in tables[|tables| - 1]
    ensures forall r <- tables[0] :: KeyLess(k, KeyOf(r)) ==> r in page.items
  {
    hide KeyLess, Ascending;
  }

  lemma PageThenRest(tables: seq<seq<Row>>, k: Key, page: Page, rest: seq<Listing>)
    requires tables != [] && Growing(tables) && Covers(tables[0], k, page) && page.next.Some?
    requires |tables| > 1 ==> Enumerates(tables[1..], page.next.value, rest)
    requires |tables| == 1 ==> rest == []
    ensures Ascending(page.items + Items(rest))
    ensures forall r <- page.items + Items(rest) :: KeyLess(k, KeyOf(r)) && r in tables[|tables| - 1]
    ensures Finished(rest) ==> forall r <- tables[0] :: KeyLess(k, KeyOf(r)) ==> r in page.items + Items(rest)
  {
    hide KeyLess, Items;
    if |tables| == 1 {
      assert Items(rest) == [] by { NoItems(); }
      assert page.items + [] == page.items;
    } else {
      var next := page.next.value;
      AscendingJoin(page.items, Items(rest), next) by { hide Finished; }
      forall r | r in Items(rest) ensures KeyLess(k, KeyOf(r)) { KeyLessTransitive(k, next, KeyOf(r)); }
      assert forall r | r in tables[0] :: r in tables[1];
    }
  }

  lemma NoItems()
    ensures Items([]) == []
  {
  }

  /**
   * Walking the cursors while rows are added: rows come in key order, none twice, and once the walk
   * has ended, every row that was there from its start has been shown.
   */
  lemma {:induction false} WalkEnumerates(
      digest: C.Digest, tables: seq<seq<Row>>, cursor: Option<string>, limit: nat, k: Key)
    requires tables != [] && Growing(tables) && limit >= 1 && StandsFor(digest, cursor, k)
    ensures Enumerates(tables, k, Walk(digest, tables, cursor, limit))
  {
    hide KeyLess, PageAfter, ListRows, Ascending, StandsFor, Covers, Enumerates, Growing;
    var walk, page := Walk(digest, tables, cursor, limit), PageAfter(tables[0], k, limit);
    FirstAscends(tables);
    PageCovers(tables[0], k, limit);
    ListingOfPage(digest, tables[0], cursor, limit, k);
    var listing := ListRows(digest, tables[0], cursor, limit).value;
    if page.next.None? {
      assert walk == [listing];
      LastPage(tables, k, page);
      OneListing(tables, k, listing);
    } else {
      var rest := Walk(digest, tables[1..], listing.nextCursor, limit);
      assert walk == [listing] + rest;
      if |tables| > 1 {
        TailGrows(tables);
        WalkEnumerates(digest, tables[1..], listing.nextCursor, limit, page.next.value);
      }
      PageThenRest(tables, k, page, rest);
      MoreListings(tables, k, listing, rest);
    }
  }

  lemma FirstAscends(tables: seq<seq<Row>>)
    requires tables != [] && Growing(tables)
    ensures Ascending(tables[0])
  {
    assert tables[0] in tables;
  }

  lemma TailGrows(tables: seq<seq<Row>>)
    requires |tables| > 1 && Growing(tables)
    ensures Growing(tables[1..])
  {
    hide Ascending;
    forall i, j, r | 0 <= i <= j < |tables[1..]| && r in tables[1..][i] ensures r in tables[1..][j] {
      assert r in tables[i + 1];
      assert r in tables[j + 1];
    }
    assert forall t <- tables[1..] :: t in tables;
  }

  lemma OneListing(tables: seq<seq<Row>>, k: Key, listing: Listing)
    requires tables != [] && Ascending(listing.items)
    requires forall r <- listing.items :: KeyLess(k, KeyOf(r)) && r in tables[|tables| - 1]
    requires forall r <- tables[0] :: KeyLess(k, KeyOf(r)) ==> r in listing.items
    ensures Enumerates(tables, k, [listing])
  {
    hide KeyLess, Ascending;
    assert Items([listing]) == listing.items;
  }

  lemma MoreListings(tables: seq<seq<Row>>, k: Key, listing: Listing, rest: seq<Listing>)
    requires tables != [] && Ascending(listing.items + Items(rest)) && listing.nextCursor.Some?
    requires forall r <- listing.items + Items(rest) :: KeyLess(k, KeyOf(r)) && r in tables[|tables| - 1]
    requires Finished(rest) ==> forall r <- tables[0] :: KeyLess(k, KeyOf(r)) ==> r in listing.items + Items(rest)
    ensures Enumerates(tables, k, [listing] + rest)
  {
    hide KeyLess, Ascending;
    assert ([listing] + rest)[1..] == rest;
    assert Items([listing] + rest) == listing.items + Items(rest);
    assert rest == [] ==> ([listing] + rest)[|[listing] + rest| - 1] == listing;
    assert rest != [] ==> ([listing] + rest)[|[listing] + rest| - 1] == rest[|rest| - 1];
  }

  /** In a walk from the start no row comes twice. */
  lemma NoRowTwice(digest: C.Digest, tables: seq<seq<Row>>, limit: nat, i: nat, j: nat)
    requires tables != [] && Growing(tables) && limit >= 1
    requires i < j < |Items(Walk(digest, tables, None, limit))|
    ensures var items := Items(Walk(digest, tables, None, limit)); KeyOf(items[i]) != KeyOf(items[j])
  {
    WalkEnumerates(digest, tables, None, limit, FIRST);
    hide Walk, Items, Growing;
  }

  // ---- a walk ends

  lemma {:induction false} AfterShrinks(rows: seq<Row>, k: Key, n: Key)
    requires KeyLess(k, n)
    ensures |After(rows, n)| <= |After(rows, k)|
    ensures (exists r <- rows :: KeyOf(r) == n) ==> |After(rows, n)| < |After(rows, k)|
  {
    hide KeyLess;
    if rows != [] {
      AfterShrinks(rows[1..], k, n);
      var key := KeyOf(rows[0]);
      if KeyLess(n, key) { KeyLessTransitive(k, n, key); }
      KeyLessTotal(n, n);
      assert rows == [rows[0]] + rows[1..];
    }
  }

  lemma NextIsARow(rows: seq<Row>, k: Key, limit: nat)
    requires Ascending(rows) && limit >= 1 && PageAfter(rows, k, limit).next.Some?
    ensures |After(rows, PageAfter(rows, k, limit).next.value)| < |After(rows, k)|
  {
    PageCovers(rows, k, limit);
    hide KeyLess, After, PageAfter;
    var page := PageAfter(rows, k, limit);
    var last := page.items[|page.items| - 1];
    assert last in rows && KeyOf(last) == page.next.value;
    AfterShrinks(rows, k, page.next.value);
  }

  /** Over a table that has stopped growing, as many requests as there are rows, and one, end the walk. */
  lemma {:induction false} WalkEnds(
      digest: C.Digest, rows: seq<Row>, tables: seq<seq<Row>>, cursor: Option<string>, limit: nat, k: Key)
    requires Ascending(rows) && limit >= 1 && StandsFor(digest, cursor, k)
    requires (forall t <- tables :: t == rows) && |tables| > |After(rows, k)|
    ensures Finished(Walk(digest, tables, cursor, limit))
  {
    hide KeyLess, PageAfter, ListRows, Ascending, StandsFor, After;
    var walk, page := Walk(digest, tables, cursor, limit), PageAfter(rows, k, limit);
    assert tables[0] in tables;
    ListingOfPage(digest, rows, cursor, limit, k);
    var listing := ListRows(digest, rows, cursor, limit).value;
    if page.next.None? {
      assert walk == [listing];
    } else {
      NextIsARow(rows, k, limit);
      assert forall t <- tables[1..] :: t in tables;
      WalkEnds(digest, rows, tables[1..], listing.nextCursor, limit, page.next.value);
      var rest := Walk(digest, tables[1..], listing.nextCursor, limit);
      assert walk == [listing] + rest && walk[|walk| - 1] == rest[|rest| - 1];
    }
  }
}