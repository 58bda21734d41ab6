/** Mapping, filtering and collapsing sequences, and how permutations pass through them. */
module Sequences {
  import opened Sorting

  function Map<S, T>(f: S -> T, s: seq<S>): (r: seq<T>)
    ensures |r| == |s|
    ensures forall i :: 0 <= i < |s| ==> r[i] == f(s[i])
  {
    if s == [] then [] else [f(s[0])] + Map(f, s[1..])
  }

  function Filter<T>(keep: T -> bool, s: seq<T>): (r: seq<T>)
    ensures |r| <= |s|
  {
    if s == [] then []
    else (if keep(s[0]) then [s[0]] else []) + Filter(keep, s[1..])
  }

  lemma {:induction false} FilterMembers<T(!new)>(keep: T -> bool, s: seq<T>)
    ensures forall x :: x in Filter(keep, s) <==> x in s && keep(x)
  {
    if s != [] { FilterMembers(keep, s[1..]); }
  }

  lemma MapConcat<S, T>(f: S -> T, a: seq<S>, b: seq<S>)
    ensures Map(f, a + b) == Map(f, a) + Map(f, b)
  {
  }

  lemma ConcatAssociative<T>(x: seq<T>, y: seq<T>, z: seq<T>)
    ensures x + (y + z) == (x + y) + z
  {
  }

  lemma FilterHead<T>(keep: T -> bool, x: T, s: seq<T>)
    ensures Filter(keep, [x] + s) == (if keep(x) then [x] else []) + Filter(keep, s)
  {
    assert ([x] + s)[1..] == s;
  }

  lemma {:induction false} FilterConcat<T>(keep: T -> bool, a: seq<T>, b: seq<T>)
    ensures Filter(keep, a + b) == Filter(keep, a) + Filter(keep, b)
  {
    if a == [] {
      assert a + b == b;
    } else {
      var x, rest := a[0], a[1..];
      FilterConcat(keep, rest, b);
      FilterHead(keep, x, rest + b);
      ConcatAssociative([x], rest, b);
      assert [x] + rest == a;
      ConcatAssociative(if keep(x) then [x] else [], Filter(keep, rest), Filter(keep, b));
    }
  }

  lemma FilterSnoc<T>(keep: T -> bool, s: seq<T>, x: T)
    ensures Filter(keep, s + [x]) == Filter(keep, s) + (if keep(x) then [x] else [])
  {
    FilterConcat(keep, s, [x]);
    assert [x][1..] == [];
  }

  lemma MappedMember<S, T>(f: S -> T, s: seq<S>, x: S)
    requires x in s
    ensures f(x) in Map(f, s)
  {
    var i :| 0 <= i < |s| && s[i] == x;
    assert Map(f, s)[i] == f(x);
  }

  lemma MappedFrom<S, T>(f: S -> T, s: seq<S>, y: T) returns (x: S)
    requires y in Map(f, s)
    ensures x in s && f(x) == y
  {
    var i :| 0 <= i < |s| && Map(f, s)[i] == y;
    x := s[i];
  }

  /** The place of a's head in its permutation b, with what is left of b. */
  lemma PullHead<T>(a: seq<T>, b: seq<T>) returns (before: seq<T>, after: seq<T>)
    requires a != [] && multiset(a) == multiset(b)
    ensures b == before + [a[0]] + after
    ensures multiset(a[1..]) == multiset(before + after)
  {
    assert a[0] in multiset(b);
    var i :| 0 <= i < |b| && b[i] == a[0];
    before, after := b[..i], b[i + 1..];
    assert b == before + [a[0]] + after;
    assert a == [a[0]] + a[1..];
    assert multiset(a[1..]) == multiset(a) - multiset{a[0]};
    assert multiset(before + after) == multiset(b) - multiset{a[0]};
  }

  lemma {:induction false} MapPermutation<S, T>(f: S -> T, a: seq<S>, b: seq<S>)
    requires multiset(a) == multiset(b)
    ensures multiset(Map(f, a)) == multiset(Map(f, b))
  {
    PermutationMembers(a, b);
    if a != [] {
      var before, after := PullHead(a, b);
      MapPermutation(f, a[1..], before + after);
      MapConcat(f, before, after);
      MapConcat(f, before, [a[0]]);
      MapConcat(f, before + [a[0]], after);
    }
  }

  lemma {:induction false} FilterPermutation<T>(keep: T -> bool, a: seq<T>, b: seq<T>)
    requires multiset(a) == multiset(b)
    ensures multiset(Filter(keep, a)) == multiset(Filter(keep, b))
  {
    PermutationMembers(a, b);
    if a != [] {
      var before, after := PullHead(a, b);
      FilterPermutation(keep, a[1..], before + after);
      FilterConcat(keep, before, after);
      FilterConcat(keep, before, [a[0]]);
      FilterConcat(keep, before + [a[0]], after);
    }
  }

  ghost predicate DistinctBy<S, T>(key: S -> T, s: seq<S>) {
    forall i, j :: 0 <= i < j < |s| ==> key(s[i]) != key(s[j])
  }

  lemma {:induction false} FilterDistinct<S(!new), T>(key: S -> T, keep: S -> bool, s: seq<S>)
    requires DistinctBy(key, s)
    ensures DistinctBy(key, Filter(keep, s))
  {
    if s != [] {
      FilterDistinct(key, keep, s[1..]);
      FilterMembers(keep, s[1..]);
      var rest := Filter(keep, s[1..]);
      forall j | 0 <= j < |rest| ensures key(s[0]) != key(rest[j]) {
        assert rest[j] in s[1..];
        var i :| 0 <= i < |s[1..]| && s[1..][i] == rest[j];
        assert s[i + 1] == rest[j];
      }
    }
  }

  lemma {:induction false} DistinctOnce<S, T>(key: S -> T, s: seq<S>, k: T)
    requires DistinctBy(key, s)
    ensures multiset(Map(key, s))[k] <= 1
  {
    if s != [] {
      DistinctOnce(key, s[1..], k);
      var rest := Map(key, s[1..]);
      assert Map(key, s) == [key(s[0])] + rest;
      if key(s[0]) == k {
        assert k !in rest;
        assert k !in multiset(rest);
      }
    }
  }

  lemma SameKeySameElement<S, T>(key: S -> T, s: seq<S>, x: S, y: S)
    requires DistinctBy(key, s) && x in s && y in s && key(x) == key(y)
    ensures x == y
  {
    var i :| 0 <= i < |s| && s[i] == x;
    var j :| 0 <= j < |s| && s[j] == y;
  }

  /** A dictionary built from a sequence: the last entry of a key wins. */
  function Index<S, K(==), V>(key: S -> K, value: S -> V, s: seq<S>): map<K, V> {
    if s == [] then map[]
    else
      var last := s[|s| - 1];
      Index(key, value, s[..|s| - 1])[key(last) := value(last)]
  }

  lemma {:induction false} IndexKeys<S, K, V>(key: S -> K, value: S -> V, s: seq<S>, k: K)
    ensures k in Index(key, value, s) <==> exists i :: 0 <= i < |s| && key(s[i]) == k
  {
    if s != [] {
      IndexKeys(key, value, s[..|s| - 1], k);
    }
  }

  lemma {:induction false} IndexValue<S, K, V>(key: S -> K, value: S -> V, s: seq<S>, i: nat)
    requires DistinctBy(key, s) && i < |s|
    ensures key(s[i]) in Index(key, value, s)
    ensures Index(key, value, s)[key(s[i])] == value(s[i])
  {
    if i < |s| - 1 {
      IndexValue(key, value, s[..|s| - 1], i);
    }
  }

  /** With distinct keys the dictionary does not depend on the order of its entries. */
  lemma IndexPermutation<S, K, V>(key: S -> K, value: S -> V, a: seq<S>, b: seq<S>)
    requires multiset(a) == multiset(b) && DistinctBy(key, a) && DistinctBy(key, b)
    ensures Index(key, value, a) == Index(key, value, b)
  {
    IndexInto(key, value, a, b);
    IndexInto(key, value, b, a);
  }

  lemma IndexInto<S, K, V>(key: S -> K, value: S -> V, a: seq<S>, b: seq<S>)
    requires multiset(a) == multiset(b) && DistinctBy(key, a) && DistinctBy(key, b)
    ensures forall k :: k in Index(key, value, a) ==>
              k in Index(key, value, b) && Index(key, value, a)[k] == Index(key, value, b)[k]
  {
    PermutationMembers(a, b);
    forall k | k in Index(key, value, a)
      ensures k in Index(key, value, b) && Index(key, value, a)[k] == Index(key, value, b)[k]
    {
      IndexKeys(key, value, a, k);
      var i :| 0 <= i < |a| && key(a[i]) == k;
      assert a[i] in b;
      var j :| 0 <= j < |b| && b[j] == a[i];
      IndexValue(key, value, a, i);
      IndexValue(key, value, b, j);
    }
  }

  /** Drops every element equal to the one before it. */
  function Collapse<T(==)>(s: seq<T>): (r: seq<T>)
    ensures r == [] <==> s == []
    ensures s != [] ==> r[|r| - 1] == s[|s| - 1]
  {
    if s == [] then []
    else
      var before := Collapse(s[..|s| - 1]);
      var last := s[|s| - 1];
      if before != [] && before[|before| - 1] == last then before else before + [last]
  }
}
