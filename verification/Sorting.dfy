/** Sorting by an order, and what sorting forgets: the order of presentation. */
module Sorting {

  /** A total preorder: every two values compare, and comparisons chain. */
  ghost predicate TotalPreorder<T(!new)>(leq: (T, T) -> bool) {
    && (forall x, y :: leq(x, y) || leq(y, x))
    && (forall x, y, z :: leq(x, y) && leq(y, z) ==> leq(x, z))
  }

  /** No two different members of `s` are tied. */
  ghost predicate NoTies<T>(leq: (T, T) -> bool, s: seq<T>) {
    forall x, y :: x in s && y in s && leq(x, y) && leq(y, x) ==> x == y
  }

  ghost predicate SortedBy<T>(leq: (T, T) -> bool, s: seq<T>) {
    forall i, j :: 0 <= i < j < |s| ==> leq(s[i], s[j])
  }

  function InsertBy<T>(leq: (T, T) -> bool, x: T, s: seq<T>): (r: seq<T>)
    ensures multiset(r) == multiset(s) + multiset{x}
    ensures |r| == |s| + 1
  {
    if s == [] then [x]
    else if leq(x, s[0]) then [x] + s
    else
      assert s == [s[0]] + s[1..];
      [s[0]] + InsertBy(leq, x, s[1..])
  }

  /** A stable sort: members that compare equal keep their order. */
  function SortBy<T>(leq: (T, T) -> bool, s: seq<T>): (r: seq<T>)
    ensures multiset(r) == multiset(s)
    ensures |r| == |s|
  {
    if s == [] then []
    else
      assert s == [s[0]] + s[1..];
      InsertBy(leq, s[0], SortBy(leq, s[1..]))
  }

  lemma {:induction false} InsertBySorted<T(!new)>(leq: (T, T) -> bool, x: T, s: seq<T>)
    requires TotalPreorder(leq) && SortedBy(leq, s)
    ensures SortedBy(leq, InsertBy(leq, x, s))
  {
    if s != [] && !leq(x, s[0]) {
      InsertBySorted(leq, x, s[1..]);
      var rest := InsertBy(leq, x, s[1..]);
      forall k | 0 <= k < |rest| ensures leq(s[0], rest[k]) {
        assert rest[k] in multiset(rest);
      }
    }
  }

  lemma {:induction false} SortBySorted<T(!new)>(leq: (T, T) -> bool, s: seq<T>)
    requires TotalPreorder(leq)
    ensures SortedBy(leq, SortBy(leq, s))
  {
    if s != [] {
      SortBySorted(leq, s[1..]);
      InsertBySorted(leq, s[0], SortBy(leq, s[1..]));
    }
  }

  lemma SameHead<T>(leq: (T, T) -> bool, a: seq<T>, b: seq<T>)
    requires SortedBy(leq, a) && SortedBy(leq, b) && a != [] && b != []
    requires a[0] in b && b[0] in a && NoTies(leq, a)
    ensures a[0] == b[0]
  {
    var i :| 0 <= i < |b| && b[i] == a[0];
    var j :| 0 <= j < |a| && a[j] == b[0];
    if i > 0 && j > 0 {
      assert leq(b[0], b[i]) && leq(a[0], a[j]);
    }
  }

  lemma PermutationMembers<T>(a: seq<T>, b: seq<T>)
    requires multiset(a) == multiset(b)
    ensures |a| == |b|
    ensures forall x :: x in a <==> x in b
  {
    assert |multiset(a)| == |multiset(b)|;
    assert forall x :: x in a <==> x in multiset(a);
    assert forall x :: x in b <==> x in multiset(b);
  }

  ghost predicate NoRepeats<T>(s: seq<T>) { forall i, j :: 0 <= i < j < |s| ==> s[i] != s[j] }

  lemma {:induction false} NoRepeatsCounts<T>(s: seq<T>)
    ensures NoRepeats(s) <==> forall x <- s :: multiset(s)[x] == 1
  {
    if s != [] {
      var head, tail := s[0], s[1..];
      NoRepeatsCounts(tail);
      assert s == [head] + tail;
      if NoRepeats(s) {
        assert head !in tail;
      }
      if forall x <- s :: multiset(s)[x] == 1 {
        assert head in s && multiset(s) == multiset{head} + multiset(tail);
        forall x | x in tail ensures multiset(tail)[x] == 1 { assert x in s; }
        forall i, j | 0 <= i < j < |s| ensures s[i] != s[j] {
          if i == 0 { assert s[j] == tail[j - 1] && s[j] in multiset(tail); }
          else { assert s[i] == tail[i - 1] && s[j] == tail[j - 1]; }
        }
      }
    }
  }

  lemma NoRepeatsPermutation<T>(a: seq<T>, b: seq<T>)
    requires multiset(a) == multiset(b) && NoRepeats(a)
    ensures NoRepeats(b)
  {
    PermutationMembers(a, b);
    NoRepeatsCounts(a);
    NoRepeatsCounts(b);
  }

  lemma PermutationTails<T>(a: seq<T>, b: seq<T>)
    requires a != [] && b != [] && a[0] == b[0] && multiset(a) == multiset(b)
    ensures multiset(a[1..]) == multiset(b[1..])
  {
    assert a == [a[0]] + a[1..] && b == [b[0]] + b[1..];
    assert multiset(a[1..]) == multiset(a) - multiset{a[0]};
    assert multiset(b[1..]) == multiset(b) - multiset{b[0]};
  }

  /** A sorted arrangement without ties is determined by its members. */
  lemma {:induction false} SortedUnique<T>(leq: (T, T) -> bool, a: seq<T>, b: seq<T>)
    requires SortedBy(leq, a) && SortedBy(leq, b)
    requires multiset(a) == multiset(b) && NoTies(leq, a)
    ensures a == b
  {
    PermutationMembers(a, b);
    if a != [] {
      SameHead(leq, a, b);
      PermutationTails(a, b);
      SortedUnique(leq, a[1..], b[1..]);
      assert a == [a[0]] + a[1..] && b == [b[0]] + b[1..];
    }
  }

  /** Sorting a permutation gives the same sequence. */
  lemma SortByPermutation<T(!new)>(leq: (T, T) -> bool, a: seq<T>, b: seq<T>)
    requires TotalPreorder(leq) && NoTies(leq, a)
    requires multiset(a) == multiset(b)
    ensures SortBy(leq, a) == SortBy(leq, b)
  {
    SortBySorted(leq, a);
    SortBySorted(leq, b);
    forall x | x in SortBy(leq, a) ensures x in a {
      assert x in multiset(SortBy(leq, a));
    }
    SortedUnique(leq, SortBy(leq, a), SortBy(leq, b));
  }
}
