/** Counters summed over a sequence: a counter is a multiset, and its order of adding is forgotten. */
module Counters {
  import opened Sorting
  import opened Sequences

  function Sum<S, T>(f: S -> multiset<T>, s: seq<S>): multiset<T> {
    if s == [] then multiset{} else Sum(f, s[..|s| - 1]) + f(s[|s| - 1])
  }

  lemma SumSnoc<S, T>(f: S -> multiset<T>, s: seq<S>, x: S)
    ensures Sum(f, s + [x]) == Sum(f, s) + f(x)
  {
    assert (s + [x])[..|s|] == s;
  }

  lemma {:induction false} SumConcat<S, T>(f: S -> multiset<T>, a: seq<S>, b: seq<S>)
    ensures Sum(f, a + b) == Sum(f, a) + Sum(f, b)
  {
    if b == [] {
      assert a + b == a;
    } else {
      SumConcat(f, a, b[..|b| - 1]);
      assert (a + b)[..|a + b| - 1] == a + b[..|b| - 1];
    }
  }

  lemma {:induction false} SumPermutation<S, T>(f: S -> multiset<T>, a: seq<S>, b: seq<S>)
    requires multiset(a) == multiset(b)
    ensures Sum(f, a) == Sum(f, b)
  {
    PermutationMembers(a, b);
    if a != [] {
      var before, after := PullHead(a, b);
      SumPermutation(f, a[1..], before + after);
      SumConcat(f, before, after);
      SumConcat(f, before, [a[0]]);
      SumConcat(f, before + [a[0]], after);
      SumConcat(f, [a[0]], a[1..]);
      assert [a[0]] + a[1..] == a;
    }
  }

  function Repeat<S>(s: seq<S>, k: nat): seq<S> { if k == 0 then [] else Repeat(s, k - 1) + s }

  lemma {:induction false} SumRepeat<S, T>(f: S -> multiset<T>, s: seq<S>, k: nat, x: T)
    ensures Sum(f, Repeat(s, k))[x] == k * Sum(f, s)[x]
  {
    if k > 0 {
      SumRepeat(f, s, k - 1, x);
      SumConcat(f, Repeat(s, k - 1), s);
      assert k * Sum(f, s)[x] == (k - 1) * Sum(f, s)[x] + Sum(f, s)[x];
    }
  }

  /** Where each element counts once, the counter holds as many as there are elements. */
  lemma {:induction false} SumSize<S, T>(f: S -> multiset<T>, s: seq<S>)
    requires forall x :: |f(x)| == 1
    ensures |Sum(f, s)| == |s|
  {
    if s != [] { SumSize(f, s[..|s| - 1]); }
  }

  lemma {:induction false} SumHas<S, T>(f: S -> multiset<T>, s: seq<S>, t: T)
    ensures t in Sum(f, s) <==> exists x <- s :: t in f(x)
  {
    if s != [] {
      SumHas(f, s[..|s| - 1], t);
      assert s == s[..|s| - 1] + [s[|s| - 1]];
    }
  }

  lemma {:induction false} SumOrder<S, T, U>(f: S -> multiset<T>, g: S -> multiset<U>, s: seq<S>, t: T, u: U)
    requires forall x <- s :: f(x)[t] <= g(x)[u]
    ensures Sum(f, s)[t] <= Sum(g, s)[u]
  {
    if s != [] {
      assert s == s[..|s| - 1] + [s[|s| - 1]];
      SumOrder(f, g, s[..|s| - 1], t, u);
    }
  }

  /** Where an element adds at most one of t, the counter of t counts elements. */
  lemma {:induction false} SumCountsElements<S, T>(f: S -> multiset<T>, has: S -> bool, s: seq<S>, t: T)
    requires forall x <- s :: f(x)[t] <= 1 && (has(x) <==> t in f(x))
    ensures Sum(f, s)[t] == |Filter(has, s)|
  {
    if s != [] {
      var front, last := s[..|s| - 1], s[|s| - 1];
      assert s == front + [last];
      SumCountsElements(f, has, front, t);
      FilterSnoc(has, front, last);
    }
  }
}
