/** The share of a sector's turnover held by its largest members. */
module HeadShare {
  import opened Wrappers
  import opened Sorting
  import opened Text

  datatype Holding = Holding(uid: string, amount: real)

  /** Largest amount first; equal amounts in UID order. */
  predicate HeadFirst(x: Holding, y: Holding) {
    x.amount > y.amount || (x.amount == y.amount && StringLeq(x.uid, y.uid))
  }

  function Total(items: seq<Holding>): real {
    if items == [] then 0.0 else items[0].amount + Total(items[1..])
  }

  /** One member in ten, at least one and at most five. */
  function HeadCount(n: nat): nat {
    var tenth := (n + 9) / 10;
    var atLeastOne := if tenth < 1 then 1 else tenth;
    if atLeastOne > 5 then 5 else atLeastOne
  }

  function HeadTotal(items: seq<Holding>, k: nat): real
    requires k <= |items|
  {
    Total(SortBy(HeadFirst, items)[..k])
  }

  function Share(items: seq<Holding>): (share: Option<real>)
    ensures share.Some? ==> items != [] && Total(items) > 0.0
  {
    if items == [] || Total(items) <= 0.0 then None
    else Some(HeadTotal(items, HeadCount(|items|)) / Total(items))
  }

  /** A member and the amount it reported, if any. */
  datatype Reported = Reported(uid: string, amount: Option<real>)

  predicate NonNegative(items: seq<Holding>) {
    forall i :: 0 <= i < |items| ==> items[i].amount >= 0.0
  }

  predicate Usable(reported: seq<Reported>) {
    forall i :: 0 <= i < |reported| ==> reported[i].amount.Some? && reported[i].amount.value >= 0.0
  }

  function Holdings(reported: seq<Reported>): (items: seq<Holding>)
    requires Usable(reported)
    ensures |items| == |reported| && NonNegative(items)
  {
    seq(|reported|, i requires 0 <= i < |reported| =>
      Holding(reported[i].uid, reported[i].amount.value))
  }

  /** One missing or negative amount leaves the head share unknown. */
  function ShareOfHead(reported: seq<Reported>): Option<real> {
    if Usable(reported) then Share(Holdings(reported)) else None
  }

  // ---- choosing members

  function Chosen(mask: seq<bool>): nat {
    if mask == [] then 0 else (if mask[0] then 1 else 0) + Chosen(mask[1..])
  }

  function ChosenTotal(items: seq<Holding>, mask: seq<bool>): real
    requires |items| == |mask|
  {
    if items == [] then 0.0
    else (if mask[0] then items[0].amount else 0.0) + ChosenTotal(items[1..], mask[1..])
  }

  /** What the items hold above the level `t`. */
  function Excess(items: seq<Holding>, t: real): real {
    if items == [] then 0.0
    else (if items[0].amount > t then items[0].amount - t else 0.0) + Excess(items[1..], t)
  }

  lemma HeadOrder()
    ensures TotalPreorder(HeadFirst)
  {
    StringOrder();
  }

  lemma {:induction false} InsertExcess(x: Holding, s: seq<Holding>, t: real)
    ensures Excess(InsertBy(HeadFirst, x, s), t) == Excess([x], t) + Excess(s, t)
    ensures Total(InsertBy(HeadFirst, x, s)) == x.amount + Total(s)
  {
    if s != [] && !HeadFirst(x, s[0]) {
      InsertExcess(x, s[1..], t);
    } else {
      assert ([x] + s)[1..] == s;
    }
  }

  lemma {:induction false} SortExcess(items: seq<Holding>, t: real)
    ensures Excess(SortBy(HeadFirst, items), t) == Excess(items, t)
    ensures Total(SortBy(HeadFirst, items)) == Total(items)
  {
    if items != [] {
      SortExcess(items[1..], t);
      InsertExcess(items[0], SortBy(HeadFirst, items[1..]), t);
    }
  }

  /** No choice of members beats its count times a level plus the excess over it. */
  lemma {:induction false} ChoiceBound(items: seq<Holding>, mask: seq<bool>, t: real, base: real)
    requires |items| == |mask| && base == Level(Chosen(mask), t)
    ensures ChosenTotal(items, mask) <= base + Excess(items, t)
  {
    if items != [] {
      var rest := Level(Chosen(mask[1..]), t);
      ChoiceBound(items[1..], mask[1..], t, rest);
    }
  }

  /** k amounts of t each. */
  function Level(k: nat, t: real): real { if k == 0 then 0.0 else t + Level(k - 1, t) }

  lemma {:induction false} LevelIsProduct(k: nat, t: real)
    ensures Level(k, t) == t * k as real
  {
    if k > 0 {
      LevelIsProduct(k - 1, t);
      assert t * k as real == t + t * (k - 1) as real;
    }
  }

  /** In head order the first k members meet that bound at the k-th amount. */
  lemma {:induction false} PrefixMeetsBound(s: seq<Holding>, k: nat, t: real)
    requires SplitAt(s, k, t)
    ensures Total(s[..k]) == Level(k, t) + Excess(s, t)
  {
    if s != [] {
      if k == 0 {
        PrefixMeetsBound(s[1..], 0, t);
      } else {
        PrefixMeetsBound(s[1..], k - 1, t);
        assert s[..k][1..] == s[1..][..k - 1];
      }
    }
  }

  ghost predicate Descends(s: seq<Holding>) {
    forall i, j :: 0 <= i < j < |s| ==> s[i].amount >= s[j].amount
  }

  lemma HeadDescends(items: seq<Holding>)
    ensures Descends(SortBy(HeadFirst, items))
  {
    HeadOrder();
    SortBySorted(HeadFirst, items);
    var s := SortBy(HeadFirst, items);
    forall i, j | 0 <= i < j < |s| ensures s[i].amount >= s[j].amount {
      assert HeadFirst(s[i], s[j]);
    }
  }

  /** The first k are at least t, the rest at most t. */
  ghost predicate SplitAt(s: seq<Holding>, k: nat, t: real) {
    && k <= |s|
    && (forall i :: 0 <= i < k ==> s[i].amount >= t)
    && (forall i :: k <= i < |s| ==> s[i].amount <= t)
  }

  lemma KthSplits(items: seq<Holding>, k: nat) returns (t: real)
    requires 0 < k <= |items|
    ensures SplitAt(SortBy(HeadFirst, items), k, t)
  {
    HeadDescends(items);
    t := SortBy(HeadFirst, items)[k - 1].amount;
  }

  /** The head total is k times the k-th amount plus everything above that amount. */
  lemma HeadTotalByLevel(items: seq<Holding>, k: nat) returns (t: real, base: real)
    requires 0 < k <= |items|
    ensures base == Level(k, t) && HeadTotal(items, k) == base + Excess(items, t)
  {
    t := KthSplits(items, k);
    var s := SortBy(HeadFirst, items);
    PrefixMeetsBound(s, k, t);
    SortExcess(items, t);
    base := Level(k, t);
  }

  /** The head total beats every other choice of k members, however ties are broken. */
  lemma HeadIsLargest(items: seq<Holding>, k: nat, mask: seq<bool>)
    requires k <= |items| == |mask| && Chosen(mask) == k
    ensures ChosenTotal(items, mask) <= HeadTotal(items, k)
  {
    if k == 0 {
      NothingChosen(items, mask);
    } else {
      var t, base := HeadTotalByLevel(items, k);
      ChoiceBound(items, mask, t, base);
    }
  }

  lemma {:induction false} NothingChosen(items: seq<Holding>, mask: seq<bool>)
    requires |items| == |mask| && Chosen(mask) == 0
    ensures ChosenTotal(items, mask) == 0.0
  {
    if items != [] { NothingChosen(items[1..], mask[1..]); }
  }

  // ---- the head is itself a choice of k members

  lemma {:induction false} PrefixMask(s: seq<Holding>, k: nat) returns (mask: seq<bool>)
    requires k <= |s|
    ensures |mask| == |s| && Chosen(mask) == k && ChosenTotal(s, mask) == Total(s[..k])
  {
    if s == [] {
      mask := [];
    } else {
      var rest := PrefixMask(s[1..], if k == 0 then 0 else k - 1);
      mask := [k > 0] + rest;
      assert mask[1..] == rest;
      assert k > 0 ==> s[..k][1..] == s[1..][..k - 1];
    }
  }

  lemma {:induction false} MaskBeforeInsert(x: Holding, s: seq<Holding>, mask: seq<bool>)
    returns (before: seq<bool>)
    requires |mask| == |s| + 1
    ensures |before| == |s| + 1 && Chosen(before) == Chosen(mask)
    ensures ChosenTotal([x] + s, before) == ChosenTotal(InsertBy(HeadFirst, x, s), mask)
  {
    if s == [] || HeadFirst(x, s[0]) {
      before := mask;
    } else {
      var inner := MaskBeforeInsert(x, s[1..], mask[1..]);
      before := [inner[0], mask[0]] + inner[1..];
      assert before[1..] == [mask[0]] + inner[1..] && before[1..][1..] == inner[1..];
      assert ([x] + s)[1..] == s && ([x] + s[1..])[1..] == s[1..];
    }
  }

  lemma {:induction false} MaskBeforeSort(items: seq<Holding>, mask: seq<bool>)
    returns (before: seq<bool>)
    requires |mask| == |items|
    ensures |before| == |items| && Chosen(before) == Chosen(mask)
    ensures ChosenTotal(items, before) == ChosenTotal(SortBy(HeadFirst, items), mask)
  {
    if items == [] {
      before := [];
    } else {
      var inserted := MaskBeforeInsert(items[0], SortBy(HeadFirst, items[1..]), mask);
      var rest := MaskBeforeSort(items[1..], inserted[1..]);
      before := [inserted[0]] + rest;
      assert before[1..] == rest;
      assert ([items[0]] + SortBy(HeadFirst, items[1..]))[1..] == SortBy(HeadFirst, items[1..]);
    }
  }

  /**
   * The head total is the largest total of any k members: some choice reaches it
   * and none exceeds it.
   */
  lemma HeadIsMaximum(items: seq<Holding>, k: nat) returns (best: seq<bool>)
    requires k <= |items|
    ensures |best| == |items| && Chosen(best) == k
    ensures ChosenTotal(items, best) == HeadTotal(items, k)
    ensures forall mask: seq<bool> :: |mask| == |items| && Chosen(mask) == k ==>
              ChosenTotal(items, mask) <= HeadTotal(items, k)
  {
    var prefix := PrefixMask(SortBy(HeadFirst, items), k);
    best := MaskBeforeSort(items, prefix);
    forall mask: seq<bool> | |mask| == |items| && Chosen(mask) == k
      ensures ChosenTotal(items, mask) <= HeadTotal(items, k)
    {
      HeadIsLargest(items, k, mask);
    }
  }

  // ---- bounds

  lemma {:induction false} TotalSplit(s: seq<Holding>, k: nat)
    requires k <= |s|
    ensures Total(s) == Total(s[..k]) + Total(s[k..])
  {
    if k > 0 {
      TotalSplit(s[1..], k - 1);
      assert s[..k][1..] == s[1..][..k - 1];
    }
  }

  lemma {:induction false} TotalAtLeast(s: seq<Holding>, low: real)
    requires forall i :: 0 <= i < |s| ==> low <= s[i].amount
    ensures Level(|s|, low) <= Total(s)
  {
    if s != [] {
      TotalAtLeast(s[1..], low);
    }
  }

  lemma {:induction false} TotalAtMost(s: seq<Holding>, high: real)
    requires forall i :: 0 <= i < |s| ==> s[i].amount <= high
    ensures Total(s) <= Level(|s|, high)
  {
    if s != [] {
      TotalAtMost(s[1..], high);
    }
  }

  /** top >= k*t and rest <= (n-k)*t make the top's average the larger one. */
  lemma AverageOfTop(top: real, rest: real, t: real, k: real, others: real)
    requires k > 0.0 && others >= 0.0 && top >= t * k && rest <= t * others
    ensures top * (k + others) >= k * (top + rest)
  {
    assert top * others >= (t * k) * others;
    assert k * rest <= k * (t * others);
    assert (t * k) * others == k * (t * others);
    assert top * (k + others) == top * k + top * others;
    assert k * (top + rest) == k * top + k * rest;
  }

  lemma CancelFactor(p: real, q: real, m: real)
    requires m > 0.0 && p * m >= q * m
    ensures p >= q
  {
  }

  lemma QuotientAtLeast(x: real, y: real, a: real, b: real)
    requires y > 0.0 && b > 0.0 && x * b >= a * y
    ensures x / y >= a / b
  {
    var p, q := x / y, a / b;
    assert p * y == x && q * b == a;
    assert p * (y * b) == x * b && q * (y * b) == a * y;
    CancelFactor(p, q, y * b);
  }

  lemma HeadCountFits(n: nat)
    ensures n > 0 ==> 1 <= HeadCount(n) <= n && HeadCount(n) <= 5
  {
  }

  /** The head is the fewest members that make up a tenth, but never more than five. */
  lemma HeadCountExactly(n: nat)
    requires n > 0
    ensures 1 <= HeadCount(n) <= 5
    ensures HeadCount(n) < 5 ==> 10 * HeadCount(n) >= n
    ensures HeadCount(n) > 1 ==> 10 * (HeadCount(n) - 1) < n
  {
  }

  /** The share is that of the head in the total, and known if anything was traded. */
  lemma ShareExactly(items: seq<Holding>)
    ensures Share(items).Some? <==> items != [] && Total(items) > 0.0
    ensures Share(items).Some? ==>
              && 1 <= HeadCount(|items|) <= |items|
              && Share(items).value * Total(items) == HeadTotal(items, HeadCount(|items|))
  {
    hide Total, HeadTotal, HeadCount;
    if items != [] && Total(items) > 0.0 {
      HeadCountFits(|items|);
      TimesBack(HeadTotal(items, HeadCount(|items|)), Total(items));
    }
  }

  lemma TimesBack(x: real, y: real)
    requires y > 0.0
    ensures x / y * y == x
  {
  }

  /** The head holds at least the k-th amount each, the rest at most that. */
  lemma HeadAndRest(s: seq<Holding>, k: nat, t: real)
    requires SplitAt(s, k, t) && NonNegative(s)
    ensures Total(s[k..]) >= 0.0 && Total(s) == Total(s[..k]) + Total(s[k..])
    ensures Total(s[..k]) >= Level(k, t) && Total(s[k..]) <= Level(|s| - k, t)
  {
    TotalSplit(s, k);
    TotalAtLeast(s[..k], t);
    TotalAtMost(s[k..], t);
    TotalAtLeast(s[k..], 0.0);
    LevelIsProduct(|s| - k, 0.0);
  }

  lemma SortKeepsSign(items: seq<Holding>)
    requires NonNegative(items)
    ensures NonNegative(SortBy(HeadFirst, items))
  {
    var s := SortBy(HeadFirst, items);
    forall i | 0 <= i < |s| ensures s[i].amount >= 0.0 {
      assert s[i] in multiset(s) && s[i] in multiset(items);
    }
  }

  lemma ShareBoundsOfParts(top: real, rest: real, t: real, k: nat, n: nat)
    requires 0 < k <= n && rest >= 0.0 && top + rest > 0.0
    requires top >= Level(k, t) && rest <= Level(n - k, t)
    ensures k as real / n as real <= top / (top + rest) <= 1.0
  {
    LevelIsProduct(k, t);
    LevelIsProduct(n - k, t);
    AverageOfTop(top, rest, t, k as real, (n - k) as real);
    QuotientAtLeast(top, top + rest, k as real, n as real);
    QuotientAtLeast(1.0, 1.0, top, top + rest);
  }

  lemma SplitTotals(items: seq<Holding>, k: nat) returns (top: real, rest: real, t: real)
    requires 0 < k <= |items| && NonNegative(items)
    ensures top == HeadTotal(items, k) && top + rest == Total(items) && rest >= 0.0
    ensures top >= Level(k, t) && rest <= Level(|items| - k, t)
  {
    t := KthSplits(items, k);
    SortKeepsSign(items);
    SortExcess(items, t);
    var s := SortBy(HeadFirst, items);
    HeadAndRest(s, k, t);
    top, rest := Total(s[..k]), Total(s[k..]);
  }

  /** Between k/n, the share of an even split, and all of the turnover. */
  lemma ShareBounds(items: seq<Holding>)
    requires NonNegative(items) && Share(items).Some?
    ensures HeadCount(|items|) as real / |items| as real <= Share(items).value <= 1.0
  {
    HeadCountFits(|items|);
    var top, rest, t := SplitTotals(items, HeadCount(|items|));
    ShareBoundsOfParts(top, rest, t, HeadCount(|items|), |items|);
  }

  // ---- moving turnover into the head

  function Transfer(items: seq<Holding>, into: nat, from: nat, d: real): (r: seq<Holding>)
    requires into < |items| && from < |items| && into != from
    ensures |r| == |items|
  {
    items[into := items[into].(amount := items[into].amount + d)]
         [from := items[from].(amount := items[from].amount - d)]
  }

  lemma {:induction false} UpdateTotals(items: seq<Holding>, mask: seq<bool>, i: nat, x: Holding)
    requires i < |items| == |mask|
    ensures Total(items[i := x]) == Total(items) + x.amount - items[i].amount
    ensures ChosenTotal(items[i := x], mask)
            == ChosenTotal(items, mask) + (if mask[i] then x.amount - items[i].amount else 0.0)
  {
    if i > 0 {
      UpdateTotals(items[1..], mask[1..], i - 1, x);
      assert items[i := x][1..] == items[1..][i - 1 := x];
    } else {
      assert items[i := x][1..] == items[1..];
    }
  }

  lemma TransferTotals(items: seq<Holding>, head: seq<bool>, into: nat, from: nat, d: real)
    requires into < |items| && from < |items| && |head| == |items| && head[into] && !head[from]
    ensures Total(Transfer(items, into, from, d)) == Total(items)
    ensures ChosenTotal(Transfer(items, into, from, d), head) == ChosenTotal(items, head) + d
  {
    var x := items[into].(amount := items[into].amount + d);
    var y := items[from].(amount := items[from].amount - d);
    UpdateTotals(items, head, into, x);
    UpdateTotals(items[into := x], head, from, y);
  }

  /**
   * Moving an amount d from a member outside a largest choice to one inside it leaves
   * the total alone and raises the share by at least d / total.
   */
  lemma TransferRaisesShare(items: seq<Holding>, head: seq<bool>, into: nat, from: nat, d: real)
    requires Share(items).Some? && |head| == |items|
    requires HeadCount(|items|) <= |items| && Chosen(head) == HeadCount(|items|)
    requires ChosenTotal(items, head) == HeadTotal(items, HeadCount(|items|))
    requires into < |items| && from < |items| && head[into] && !head[from] && d >= 0.0
    ensures var after := Transfer(items, into, from, d);
            && Total(after) == Total(items)
            && Share(after).Some?
            && Share(after).value >= Share(items).value + d / Total(items)
  {
    var k, total := HeadCount(|items|), Total(items);
    var after := Transfer(items, into, from, d);
    TransferTotals(items, head, into, from, d);
    HeadIsLargest(after, k, head);
    RaisedQuotient(HeadTotal(after, k), HeadTotal(items, k), d, total);
  }

  lemma RaisedQuotient(p: real, q: real, d: real, total: real)
    requires total > 0.0 && p >= q + d
    ensures p / total >= q / total + d / total
  {
    QuotientAtLeast(p, total, q + d, total);
  }
}
