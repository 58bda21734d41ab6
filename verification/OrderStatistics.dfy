/**
 * Medians, interpolated percentiles and the robust return of a sector: the plain
 * median below twenty members, the 5%-95% winsorised mean from twenty on.
 */
module OrderStatistics {
  import opened Wrappers
  import opened Sorting

  predicate RealLeq(x: real, y: real) { x <= y }

  function Sorted(s: seq<real>): (r: seq<real>)
    ensures multiset(r) == multiset(s) && |r| == |s|
  {
    SortBy(RealLeq, s)
  }

  function Sum(s: seq<real>): real {
    if s == [] then 0.0 else s[0] + Sum(s[1..])
  }

  function Min(x: real, y: real): real { if x <= y then x else y }

  function Max(x: real, y: real): real { if x <= y then y else x }

  function Clamp(low: real, high: real, x: real): real { Min(high, Max(low, x)) }

  function Median(values: seq<real>): (m: Option<real>)
    ensures m.None? <==> values == []
  {
    if values == [] then None
    else
      var ordered := Sorted(values);
      var middle := |ordered| / 2;
      if |ordered| % 2 == 1 then Some(ordered[middle])
      else Some((ordered[middle - 1] + ordered[middle]) / 2.0)
  }

  /** The interpolated percentile of an ordered sample. */
  function Percentile(ordered: seq<real>, proportion: real): real
    requires ordered != [] && 0.0 <= proportion <= 1.0
  {
    PercentileAt(ordered, Position(|ordered|, proportion))
  }

  function Position(count: nat, proportion: real): (p: real)
    requires count > 0 && 0.0 <= proportion <= 1.0
    ensures 0.0 <= p <= (count - 1) as real
  {
    ((count - 1) as real) * proportion
  }

  function PercentileAt(ordered: seq<real>, position: real): real
    requires ordered != [] && 0.0 <= position <= (|ordered| - 1) as real
  {
    var lower := position.Floor;
    var upper := if lower + 1 < |ordered| - 1 then lower + 1 else |ordered| - 1;
    Interpolate(ordered[lower], ordered[upper], position - lower as real)
  }

  function Interpolate(x: real, y: real, weight: real): real { x + (y - x) * weight }

  function ClampAll(low: real, high: real, s: seq<real>): (r: seq<real>)
    ensures |r| == |s|
    ensures forall i :: 0 <= i < |s| ==> r[i] == Clamp(low, high, s[i])
  {
    seq(|s|, i requires 0 <= i < |s| => Clamp(low, high, s[i]))
  }

  function RobustReturn(values: seq<real>): (r: Option<real>)
    ensures r.None? <==> values == []
  {
    if values == [] then None
    else
      var ordered := Sorted(values);
      if |ordered| < 20 then Median(ordered) else Some(WinsorisedMean(ordered))
  }

  function WinsorisedMean(ordered: seq<real>): real
    requires ordered != []
  {
    var lower := Percentile(ordered, 0.05);
    var upper := Percentile(ordered, 0.95);
    Mean(ClampAll(lower, upper, ordered))
  }

  function Mean(s: seq<real>): real
    requires s != []
  {
    Sum(s) / |s| as real
  }

  // ---- sorting reals

  ghost predicate Ascends(s: seq<real>) {
    forall i, j :: 0 <= i <= j < |s| ==> s[i] <= s[j]
  }

  lemma SortedAscends(s: seq<real>)
    ensures Ascends(Sorted(s))
  {
    SortBySorted(RealLeq, s);
    var r := Sorted(s);
    forall i, j | 0 <= i <= j < |r| ensures r[i] <= r[j] {
      assert i < j ==> RealLeq(r[i], r[j]);
    }
  }

  lemma AscendingIsSorted(s: seq<real>)
    requires Ascends(s)
    ensures Sorted(s) == s
  {
    SortBySorted(RealLeq, s);
    assert SortedBy(RealLeq, s);
    SortedUnique(RealLeq, Sorted(s), s);
  }

  lemma SortedPermutation(a: seq<real>, b: seq<real>)
    requires multiset(a) == multiset(b)
    ensures Sorted(a) == Sorted(b)
  {
    SortByPermutation(RealLeq, a, b);
  }

  lemma SortedTwice(s: seq<real>)
    ensures Sorted(Sorted(s)) == Sorted(s)
  {
    SortedPermutation(Sorted(s), s);
  }

  /** The statistics see the members, not the order they come in. */
  lemma RobustReturnPermutation(a: seq<real>, b: seq<real>)
    requires multiset(a) == multiset(b)
    ensures RobustReturn(a) == RobustReturn(b)
    ensures Median(a) == Median(b)
  {
    SortedPermutation(a, b);
    PermutationMembers(a, b);
  }

  // ---- monotonicity

  ghost predicate Below(a: seq<real>, b: seq<real>) {
    |a| == |b| && forall i :: 0 <= i < |a| ==> a[i] <= b[i]
  }

  /** The k-th value once x has joined the ascending sample s. */
  function Joined(x: real, s: seq<real>, k: nat): real
    requires k <= |s|
  {
    var below := if k == 0 then x else Max(s[k - 1], x);
    if k == |s| then below else Min(s[k], below)
  }

  lemma JoinedFirst(x: real, s: seq<real>, k: nat)
    requires Ascends(s) && k <= |s| && (s != [] ==> x <= s[0])
    ensures ([x] + s)[k] == Joined(x, s, k)
  {
    if k > 0 {
      assert s[0] <= s[k - 1];
      assert k < |s| ==> s[k - 1] <= s[k];
    }
  }

  lemma JoinedLater(x: real, s: seq<real>, k: nat)
    requires s != [] && s[0] < x && k <= |s|
    ensures k > 0 ==> Joined(x, s[1..], k - 1) == Joined(x, s, k)
  {
  }

  lemma TailAscends(s: seq<real>)
    requires Ascends(s) && s != []
    ensures Ascends(s[1..])
  {
  }

  lemma {:induction false} InsertedAt(x: real, s: seq<real>, k: nat)
    requires Ascends(s) && k <= |s|
    ensures InsertBy(RealLeq, x, s)[k] == Joined(x, s, k)
  {
    if s == [] || x <= s[0] {
      JoinedFirst(x, s, k);
    } else if k > 0 {
      TailAscends(s);
      InsertedAt(x, s[1..], k - 1);
      JoinedLater(x, s, k);
    } else {
      assert k < |s| ==> s[0] <= s[k];
    }
  }

  lemma JoinedMonotone(x: real, s: seq<real>, y: real, t: seq<real>, k: nat)
    requires x <= y && Below(s, t) && k <= |s|
    ensures Joined(x, s, k) <= Joined(y, t, k)
  {
  }

  lemma InsertMonotone(x: real, s: seq<real>, y: real, t: seq<real>, k: nat)
    requires x <= y && Below(s, t) && Ascends(s) && Ascends(t) && k <= |s|
    ensures InsertBy(RealLeq, x, s)[k] <= InsertBy(RealLeq, y, t)[k]
  {
    InsertedAt(x, s, k);
    InsertedAt(y, t, k);
    JoinedMonotone(x, s, y, t, k);
  }

  lemma {:induction false} SortedMonotone(a: seq<real>, b: seq<real>)
    requires Below(a, b)
    ensures Below(Sorted(a), Sorted(b))
  {
    if a != [] {
      SortedMonotone(a[1..], b[1..]);
      SortedAscends(a[1..]);
      SortedAscends(b[1..]);
      forall k | 0 <= k < |a| ensures Sorted(a)[k] <= Sorted(b)[k] {
        InsertMonotone(a[0], Sorted(a[1..]), b[0], Sorted(b[1..]), k);
      }
    }
  }

  lemma {:induction false} SumMonotone(a: seq<real>, b: seq<real>)
    requires Below(a, b)
    ensures Sum(a) <= Sum(b)
  {
    if a != [] { SumMonotone(a[1..], b[1..]); }
  }

  /** A percentile is a weighted mean of two neighbours, and exact at a whole position. */
  lemma PercentileBetween(ordered: seq<real>, position: real)
    requires ordered != [] && 0.0 <= position <= (|ordered| - 1) as real
    requires Ascends(ordered)
    ensures ordered[position.Floor] <= PercentileAt(ordered, position)
    ensures if position == position.Floor as real
            then PercentileAt(ordered, position) == ordered[position.Floor]
            else PercentileAt(ordered, position) <= ordered[position.Floor + 1]
  {
    var at := position.Floor;
    if position != at as real {
      WeightedMean(ordered[at], ordered[at + 1], position - at as real);
    }
  }

  lemma WeightedMean(x: real, y: real, w: real)
    requires x <= y && 0.0 <= w <= 1.0
    ensures x <= Interpolate(x, y, w) <= y
  {
    var gap := y - x;
    assert 0.0 <= gap * w && 0.0 <= gap * (1.0 - w);
    assert gap * w + gap * (1.0 - w) == gap;
  }

  lemma WeightedMeanMonotone(x: real, y: real, x': real, y': real, w: real)
    requires x <= x' && y <= y' && 0.0 <= w <= 1.0
    ensures Interpolate(x, y, w) <= Interpolate(x', y', w)
  {
    var up, up' := x' - x, y' - y;
    assert 0.0 <= up * (1.0 - w) && 0.0 <= up' * w;
    assert Interpolate(x', y', w) == Interpolate(x, y, w) + up * (1.0 - w) + up' * w;
  }

  lemma PercentileMonotone(a: seq<real>, b: seq<real>, position: real)
    requires a != [] && Below(a, b) && 0.0 <= position <= (|a| - 1) as real
    ensures PercentileAt(a, position) <= PercentileAt(b, position)
  {
    var lower := position.Floor;
    var upper := if lower + 1 < |a| - 1 then lower + 1 else |a| - 1;
    WeightedMeanMonotone(a[lower], a[upper], b[lower], b[upper], position - lower as real);
  }

  lemma DivideMonotone(x: real, y: real, n: real)
    requires x <= y && n > 0.0
    ensures x / n <= y / n
  {
  }

  lemma WinsorisedMeanMonotone(a: seq<real>, b: seq<real>)
    requires a != [] && Below(a, b)
    ensures WinsorisedMean(a) <= WinsorisedMean(b)
  {
    PercentileMonotone(a, b, Position(|a|, 0.05));
    PercentileMonotone(a, b, Position(|a|, 0.95));
    var ca := ClampAll(Percentile(a, 0.05), Percentile(a, 0.95), a);
    var cb := ClampAll(Percentile(b, 0.05), Percentile(b, 0.95), b);
    SumMonotone(ca, cb);
    DivideMonotone(Sum(ca), Sum(cb), |ca| as real);
  }

  lemma MedianMonotone(a: seq<real>, b: seq<real>)
    requires a != [] && Below(a, b)
    ensures Median(a).value <= Median(b).value
  {
    SortedMonotone(a, b);
    var x, y, middle := Sorted(a), Sorted(b), |a| / 2;
    assert x[middle] <= y[middle];
    if |a| % 2 == 0 {
      assert x[middle - 1] <= y[middle - 1];
    }
  }

  /** Raising members never lowers the robust return, in either regime. */
  lemma RobustReturnMonotone(a: seq<real>, b: seq<real>)
    requires a != [] && Below(a, b)
    ensures RobustReturn(a).value <= RobustReturn(b).value
  {
    SortedMonotone(a, b);
    if |a| >= 20 {
      WinsorisedMeanMonotone(Sorted(a), Sorted(b));
    } else {
      MedianMonotone(Sorted(a), Sorted(b));
    }
  }

  // ---- resistance to a single member

  function Without(values: seq<real>, i: nat): (r: seq<real>)
    requires i < |values|
    ensures |r| == |values| - 1
  {
    values[..i] + values[i + 1..]
  }

  /** The robust return lies between two of the members other than member `i`. */
  ghost predicate Resists(values: seq<real>, i: nat)
    requires i < |values|
  {
    var r := RobustReturn(values).value;
    && (exists x :: x in Without(values, i) && x <= r)
    && (exists y :: y in Without(values, i) && r <= y)
  }

  lemma SortedWithout(values: seq<real>, i: nat)
    requires i < |values|
    ensures Sorted(values) == InsertBy(RealLeq, values[i], Sorted(Without(values, i)))
  {
    var moved := [values[i]] + Without(values, i);
    assert multiset(values) == multiset(moved) by {
      assert values == values[..i] + [values[i]] + values[i + 1..];
    }
    SortedPermutation(values, moved);
    assert moved[1..] == Without(values, i);
  }

  lemma SortedMember(s: seq<real>, k: nat)
    requires k < |s|
    ensures Sorted(s)[k] in s
  {
    assert Sorted(s)[k] in multiset(Sorted(s));
  }

  /** The second smallest and second largest values are bracketed by the other members. */
  lemma SecondFromEachEnd(values: seq<real>, i: nat) returns (low: real, high: real)
    requires |values| >= 3 && i < |values|
    ensures low in Without(values, i) && high in Without(values, i)
    ensures low <= Sorted(values)[1] && Sorted(values)[|values| - 2] <= high
  {
    var rest := Without(values, i);
    SortedWithout(values, i);
    SortedAscends(rest);
    InsertedAt(values[i], Sorted(rest), 1);
    InsertedAt(values[i], Sorted(rest), |rest| - 1);
    low, high := Sorted(rest)[0], Sorted(rest)[|rest| - 1];
    SortedMember(rest, 0);
    SortedMember(rest, |rest| - 1);
  }

  lemma {:induction false} SumBounds(s: seq<real>, low: real, high: real)
    requires forall i :: 0 <= i < |s| ==> low <= s[i] <= high
    ensures low * |s| as real <= Sum(s) <= high * |s| as real
  {
    if s != [] {
      SumBounds(s[1..], low, high);
      assert low * |s| as real == low + low * (|s| - 1) as real;
      assert high * |s| as real == high + high * (|s| - 1) as real;
    }
  }

  lemma QuotientBounds(low: real, total: real, high: real, n: real)
    requires n > 0.0 && low * n <= total <= high * n
    ensures low <= total / n <= high
  {
    var q := total / n;
    assert q * n == total;
    assert low > q ==> low * n > q * n;
    assert q > high ==> q * n > high * n;
  }

  lemma MeanBounds(s: seq<real>, low: real, high: real)
    requires s != [] && forall i :: 0 <= i < |s| ==> low <= s[i] <= high
    ensures low <= Mean(s) <= high
  {
    SumBounds(s, low, high);
    QuotientBounds(low, Sum(s), high, |s| as real);
  }

  /** From twenty-one members on, both interpolated cuts clear the extremes. */
  lemma CutsClearExtremes(s: seq<real>)
    requires |s| > 20 && Ascends(s)
    ensures s[1] <= Percentile(s, 0.05) <= Percentile(s, 0.95) <= s[|s| - 2]
  {
    var low, high := Position(|s|, 0.05), Position(|s|, 0.95);
    assert 1.0 <= low && low + 2.0 <= high && high <= (|s| - 2) as real;
    PercentileBetween(s, low);
    PercentileBetween(s, high);
  }

  lemma WinsorisedWithin(s: seq<real>)
    requires |s| > 20 && Ascends(s)
    ensures s[1] <= WinsorisedMean(s) <= s[|s| - 2]
  {
    CutsClearExtremes(s);
    var low, high := Percentile(s, 0.05), Percentile(s, 0.95);
    MeanBounds(ClampAll(low, high, s), low, high);
  }

  lemma MedianWithin(s: seq<real>)
    requires |s| >= 3 && Ascends(s)
    ensures s[1] <= Median(s).value <= s[|s| - 2]
  {
    AscendingIsSorted(s);
  }

  /** Away from twenty members the return stays inside the two second-extreme values. */
  lemma WithinSecondExtremes(values: seq<real>)
    requires |values| >= 3 && |values| != 20
    ensures Sorted(values)[1] <= RobustReturn(values).value <= Sorted(values)[|values| - 2]
  {
    SortedAscends(values);
    if |values| > 20 {
      WinsorisedWithin(Sorted(values));
    } else {
      MedianWithin(Sorted(values));
    }
  }

  lemma AllZero(n: nat)
    ensures Sum(seq(n, i => 0.0)) == 0.0
  {
    if n > 0 {
      assert seq(n, i => 0.0)[1..] == seq(n - 1, i => 0.0);
      AllZero(n - 1);
    }
  }

  /** Nineteen zeros and one -1: the interpolated 5% point still leans on the -1. */
  lemma TwentyLean() returns (values: seq<real>)
    ensures |values| == 20 && !Resists(values, 0)
  {
    values := seq(20, i => if i == 0 then -1.0 else 0.0);
    AscendingIsSorted(values);
    assert Position(20, 0.05) == 0.95 && Position(20, 0.95) == 18.05;
    assert Percentile(values, 0.05) == -0.05 && Percentile(values, 0.95) == 0.0;
    var c := ClampAll(-0.05, 0.0, values);
    assert c[1..] == seq(19, i => 0.0);
    AllZero(19);
    assert RobustReturn(values).value == Mean(c) < 0.0;
    forall x | x in Without(values, 0) ensures x == 0.0 {
    }
  }

  lemma TwoLean() returns (values: seq<real>)
    ensures |values| == 2 && !Resists(values, 0)
  {
    values := [0.0, 2.0];
    AscendingIsSorted(values);
    assert Without(values, 0) == [2.0];
    assert RobustReturn(values).value == 1.0;
  }

  lemma ResistsAwayFromTwenty(values: seq<real>, i: nat)
    requires |values| >= 3 && |values| != 20 && i < |values|
    ensures Resists(values, i)
  {
    WithinSecondExtremes(values);
    var low, high := SecondFromEachEnd(values, i);
  }

  /**
   * Whatever one member's value is, the return of n members stays within the range of
   * the other n - 1 -- for every sample of that size -- exactly when n >= 3 and n != 20.
   */
  lemma ResistanceExactly(n: nat)
    requires n >= 2
    ensures (forall values: seq<real>, i: nat | |values| == n && i < n :: Resists(values, i))
            <==> n >= 3 && n != 20
  {
    if n == 2 {
      var values := TwoLean();
    } else if n == 20 {
      var values := TwentyLean();
    } else {
      forall values: seq<real>, i: nat | |values| == n && i < n ensures Resists(values, i) {
        ResistsAwayFromTwenty(values, i);
      }
    }
  }

  // ---- exactly which value, from the sample in ascending order

  /** The middle value, or halfway between the two middle ones. */
  lemma MedianExactly(values: seq<real>, ordered: seq<real>)
    requires values != [] && multiset(values) == multiset(ordered) && Ascends(ordered)
    ensures |ordered| == |values|
    ensures var n := |values|;
            if n % 2 == 1 then Median(values) == Some(ordered[n / 2])
            else 2.0 * Median(values).value == ordered[n / 2 - 1] + ordered[n / 2]
  {
    SortedPermutation(values, ordered);
    AscendingIsSorted(ordered);
  }

  /** Capped at the two cuts. */
  ghost predicate Capped(ordered: seq<real>, low: real, high: real, capped: seq<real>) {
    && |capped| == |ordered|
    && forall k :: 0 <= k < |ordered| ==>
         capped[k] == if ordered[k] <= low then low else if ordered[k] >= high then high else ordered[k]
  }

  lemma FloorOf(p: real, i: int, w: real)
    requires p == i as real + w && 0.0 <= w < 1.0
    ensures p.Floor == i
  {
  }

  /** A twentieth of the way up the sample, and a twentieth of the way down. */
  lemma CutsExactly(ordered: seq<real>, i: nat, w: real)
    requires |ordered| >= 20 && i == (|ordered| - 1) / 20 && w * 20.0 == ((|ordered| - 1) % 20) as real
    ensures i < |ordered| - 1 - i
    ensures Percentile(ordered, 0.05) == ordered[i] + w * (ordered[i + 1] - ordered[i])
    ensures var top := |ordered| - 1 - i;
            Percentile(ordered, 0.95) == ordered[top] - w * (ordered[top] - ordered[top - 1])
  {
    var n := |ordered|;
    var up, down := Position(n, 0.05), Position(n, 0.95);
    assert n - 1 == 20 * i + (n - 1) % 20;
    assert up == i as real + w;
    FloorOf(up, i, w);
    assert down == (n - 1 - i) as real - w;
    if w == 0.0 {
      FloorOf(down, n - 1 - i, 0.0);
    } else {
      FloorOf(down, n - 2 - i, 1.0 - w);
      Backwards(ordered[n - 2 - i], ordered[n - 1 - i], w);
    }
  }

  lemma Backwards(x: real, y: real, w: real)
    ensures Interpolate(x, y, 1.0 - w) == y - w * (y - x)
  {
  }

  lemma CappedExactly(ordered: seq<real>, low: real, high: real, capped: seq<real>)
    requires Capped(ordered, low, high, capped) && low <= high
    ensures ClampAll(low, high, ordered) == capped
  {
  }

  lemma CutsInOrder(ordered: seq<real>)
    requires Ascends(ordered) && |ordered| >= 20
    ensures Percentile(ordered, 0.05) <= Percentile(ordered, 0.95)
  {
    var n := |ordered|;
    var i, w := (n - 1) / 20, ((n - 1) % 20) as real / 20.0;
    CutsExactly(ordered, i, w);
    WeightedMean(ordered[i], ordered[i + 1], w);
    WeightedMean(ordered[n - 2 - i], ordered[n - 1 - i], 1.0 - w);
    Backwards(ordered[n - 2 - i], ordered[n - 1 - i], w);
    assert Interpolate(ordered[i], ordered[i + 1], w) == ordered[i] + w * (ordered[i + 1] - ordered[i]);
    assert ordered[i + 1] <= ordered[n - 2 - i];
    hide Percentile, Interpolate;
  }

  /** The cuts lie a twentieth of the way from either end of the sample, between two neighbours by their weight. */
  ghost predicate Cuts(ordered: seq<real>, i: nat, w: real, low: real, high: real) {
    && |ordered| >= 20 && i == (|ordered| - 1) / 20 && w * 20.0 == ((|ordered| - 1) % 20) as real
    && low == ordered[i] + w * (ordered[i + 1] - ordered[i])
    && high == ordered[|ordered| - 1 - i] - w * (ordered[|ordered| - 1 - i] - ordered[|ordered| - 2 - i])
  }

  lemma CutsAre(ordered: seq<real>, i: nat, w: real, low: real, high: real)
    requires Cuts(ordered, i, w, low, high)
    ensures low == Percentile(ordered, 0.05) && high == Percentile(ordered, 0.95)
  {
    CutsExactly(ordered, i, w);
    hide Percentile;
  }

  lemma LargeSample(values: seq<real>, ordered: seq<real>)
    requires |values| >= 20 && multiset(values) == multiset(ordered) && Ascends(ordered)
    ensures |ordered| == |values| && RobustReturn(values) == Some(WinsorisedMean(ordered))
  {
    SortedPermutation(values, ordered);
    AscendingIsSorted(ordered);
    hide Sorted, WinsorisedMean, Median;
  }

  lemma SmallSample(values: seq<real>)
    requires 0 < |values| < 20
    ensures RobustReturn(values) == Median(values)
  {
    SortedTwice(values);
    hide Sorted;
  }

  /**
   * Below twenty members the median; from twenty on the mean of the members capped at a twentieth
   * of the way from either end.
   */
  lemma RobustReturnExactly(
    values: seq<real>, ordered: seq<real>, i: nat, w: real, low: real, high: real, capped: seq<real>)
    requires values != [] && multiset(values) == multiset(ordered) && Ascends(ordered)
    requires |values| >= 20 ==> Cuts(ordered, i, w, low, high) && Capped(ordered, low, high, capped)
    ensures if |values| < 20 then RobustReturn(values) == Median(values)
            else |capped| == |values| && RobustReturn(values) == Some(Mean(capped))
  {
    hide Cuts, Capped, RobustReturn, Median, Ascends, Mean;
    if |values| < 20 {
      SmallSample(values);
    } else {
      LargeSample(values, ordered);
      CutsAre(ordered, i, w, low, high);
      CutsInOrder(ordered);
      hide Percentile, ClampAll;
      CappedExactly(ordered, low, high, capped);
    }
  }
}
