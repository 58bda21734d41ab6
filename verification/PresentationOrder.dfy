/** The order in which inputs are presented never reaches the output. */
module PresentationOrder {
  import opened Wrappers
  import opened Sorting
  import opened Sequences
  import opened Text
  import opened Domain
  import opened OrderStatistics
  import opened HeadShare
  import opened MetricFormulas
  import opened MetricProducer

  /** Window by window the same date and, in some order, the same amounts. */
  ghost predicate Reshuffled(a: seq<Window>, b: seq<Window>) {
    && |a| == |b|
    && forall i :: 0 <= i < |a| ==>
         a[i].date == b[i].date && multiset(a[i].amounts) == multiset(b[i].amounts)
  }

  /**
   * The same evaluation presented differently: permuted primary members, sector UIDs,
   * windows and observations, and permuted amounts inside each window (`middle` holds
   * a's windows with b's inner orders).
   */
  ghost predicate SamePresentation(a: MetricInput, b: MetricInput, middle: seq<Window>) {
    && b == a.(sectorMembers := b.sectorMembers, primary := b.primary, windows := b.windows,
               observations := b.observations)
    && multiset(a.sectorMembers) == multiset(b.sectorMembers)
    && multiset(a.primary) == multiset(b.primary)
    && Reshuffled(a.windows, middle) && multiset(middle) == multiset(b.windows)
    && multiset(a.observations) == multiset(b.observations)
  }

  // ---- the orders used for sorting leave no ties

  lemma SortStrings(a: seq<string>, b: seq<string>)
    requires multiset(a) == multiset(b)
    ensures SortBy(StringLeq, a) == SortBy(StringLeq, b)
  {
    StringOrder();
    SortByPermutation(StringLeq, a, b);
  }

  lemma DateOrder(s: seq<Window>)
    requires DistinctBy(WindowDate, s)
    ensures TotalPreorder(DateFirst) && NoTies(DateFirst, s)
  {
    StringOrder();
    forall x, y | x in s && y in s && DateFirst(x, y) && DateFirst(y, x) ensures x == y {
      SameKeySameElement(WindowDate, s, x, y);
    }
  }

  lemma MinuteOrder(s: seq<Observation>)
    requires DistinctBy(ObservationUid, s)
    ensures TotalPreorder(MinuteFirst) && NoTies(MinuteFirst, s)
  {
    StringOrder();
    forall x, y | x in s && y in s && MinuteFirst(x, y) && MinuteFirst(y, x) ensures x == y {
      SameKeySameElement(ObservationUid, s, x, y);
    }
  }

  lemma ObservationsSorted(a: seq<Observation>, b: seq<Observation>)
    requires multiset(a) == multiset(b) && DistinctBy(ObservationUid, a)
    ensures OrderedObservations(a) == OrderedObservations(b)
    ensures Continuity(a) == Continuity(b)
  {
    MinuteOrder(a);
    SortByPermutation(MinuteFirst, a, b);
    PermutationMembers(a, b);
  }

  // ---- market-wide returns

  lemma RobustAndBreadthPermutation(a: seq<Option<real>>, b: seq<Option<real>>)
    requires multiset(a) == multiset(b)
    ensures RobustAndBreadth(a) == RobustAndBreadth(b)
  {
    PermutationMembers(a, b);
    FilterPermutation(Known, a, b);
    PermutationMembers(Filter(Known, a), Filter(Known, b));
    MapPermutation(OrZero, a, b);
    var x, y := Map(OrZero, a), Map(OrZero, b);
    RobustReturnPermutation(x, y);
    FilterPermutation(Positive, x, y);
    PermutationMembers(Filter(Positive, x), Filter(Positive, y));
  }

  lemma ReturnsPermutation(a: seq<Member>, b: seq<Member>, kind: ReturnKind)
    requires multiset(a) == multiset(b)
    ensures ReturnAndBreadth(a, kind) == ReturnAndBreadth(b, kind)
  {
    MapPermutation(m => ReturnOf(kind, m), a, b);
    RobustAndBreadthPermutation(Map(m => ReturnOf(kind, m), a), Map(m => ReturnOf(kind, m), b));
  }

  // ---- windows

  lemma {:induction false} InsertReshuffled(x: Window, a: seq<Window>, y: Window, b: seq<Window>)
    requires Reshuffled([x], [y]) && Reshuffled(a, b)
    ensures Reshuffled(InsertBy(DateFirst, x, a), InsertBy(DateFirst, y, b))
  {
    assert [x][0].date == [y][0].date;
    if a != [] && !DateFirst(x, a[0]) {
      InsertReshuffled(x, a[1..], y, b[1..]);
    }
  }

  lemma {:induction false} SortReshuffled(a: seq<Window>, b: seq<Window>)
    requires Reshuffled(a, b)
    ensures Reshuffled(SortBy(DateFirst, a), SortBy(DateFirst, b))
  {
    if a != [] {
      SortReshuffled(a[1..], b[1..]);
      InsertReshuffled(a[0], SortBy(DateFirst, a[1..]), b[0], SortBy(DateFirst, b[1..]));
    }
  }

  ghost predicate CleanWindows(s: seq<Window>) {
    forall w <- s :: DistinctBy(HoldingUid, w.amounts)
  }

  lemma {:induction false} FiguresReshuffled(a: seq<Window>, b: seq<Window>, uids: seq<string>)
    requires uids != [] && Reshuffled(a, b) && CleanWindows(a) && CleanWindows(b)
    ensures FiguresOf(a, uids) == FiguresOf(b, uids)
  {
    hide Covers, Current, HeadTotal, Total, HeadCount, Index;
    if a != [] {
      var last := |a| - 1;
      assert a[last] in a && b[last] in b;
      IndexPermutation(HoldingUid, HoldingAmount, a[last].amounts, b[last].amounts);
      FiguresReshuffled(a[..last], b[..last], uids);
    }
  }

  lemma SortedClean(s: seq<Window>)
    requires CleanWindows(s)
    ensures CleanWindows(SortBy(DateFirst, s))
  {
    PermutationMembers(SortBy(DateFirst, s), s);
  }

  lemma WindowsAnyOrder(a: seq<Window>, middle: seq<Window>, b: seq<Window>, uids: seq<string>)
    requires Reshuffled(a, middle) && multiset(middle) == multiset(b)
    requires DistinctBy(WindowDate, a) && CleanWindows(a) && CleanWindows(b)
    ensures HistoricalBaselines(a, uids) == HistoricalBaselines(b, uids)
    ensures SortBy(StringLeq, Map(WindowDate, a)) == SortBy(StringLeq, Map(WindowDate, b))
  {
    assert Map(WindowDate, a) == Map(WindowDate, middle);
    MapPermutation(WindowDate, middle, b);
    SortStrings(Map(WindowDate, middle), Map(WindowDate, b));
    forall i, j | 0 <= i < j < |middle| ensures WindowDate(middle[i]) != WindowDate(middle[j]) {
      assert WindowDate(a[i]) != WindowDate(a[j]);
    }
    DateOrder(middle);
    SortByPermutation(DateFirst, middle, b);
    PermutationMembers(middle, b);
    SortReshuffled(a, middle);
    SortedClean(a);
    SortedClean(b);
    if uids != [] {
      FiguresReshuffled(SortBy(DateFirst, a), SortBy(DateFirst, middle), uids);
    }
  }

  // ---- the evaluation

  lemma SectorMembersAnyOrder(a: MetricInput, b: MetricInput, middle: seq<Window>)
    requires ValidInput(a) && ValidInput(b) && SamePresentation(a, b, middle)
    ensures SectorMembers(a) == SectorMembers(b)
    ensures SortBy(StringLeq, a.sectorMembers) == SortBy(StringLeq, b.sectorMembers)
  {
    IndexPermutation(MemberUid, Itself<Member>, a.primary, b.primary);
    SortStrings(a.sectorMembers, b.sectorMembers);
  }

  lemma BaseAnyOrder(a: MetricInput, b: MetricInput, middle: seq<Window>, sector: seq<Member>)
    requires ValidInput(a) && ValidInput(b) && SamePresentation(a, b, middle)
    ensures BaseOf(a, sector) == BaseOf(b, sector)
  {
    FilterPermutation(Tradable, a.primary, b.primary);
    var x, y := Filter(Tradable, a.primary), Filter(Tradable, b.primary);
    ReturnsPermutation(x, y, DayReturn);
    ReturnsPermutation(x, y, Return5m);
    ReturnsPermutation(x, y, Return15m);
    WindowsAnyOrder(a.windows, middle, b.windows, Map(MemberUid, sector));
    ObservationsSorted(a.observations, b.observations);
  }

  lemma QualityAnyOrder(a: MetricInput, b: MetricInput, middle: seq<Window>)
    requires ValidInput(a) && ValidInput(b) && SamePresentation(a, b, middle)
    ensures SectorQuality(a) == SectorQuality(b)
    ensures ValidSector(a) == ValidSector(b)
    ensures CalculatedBase(a) == CalculatedBase(b)
  {
    hide BaseOf, QualityOf, Filter;
    SectorMembersAnyOrder(a, b, middle);
    BaseAnyOrder(a, b, middle, ValidSector(a));
  }

  lemma ScoresAnyOrder(current: bool, a: MetricInput, b: MetricInput, middle: seq<Window>)
    requires ValidInput(a) && ValidInput(b) && SamePresentation(a, b, middle)
    ensures ContextsOf(a) == ContextsOf(b)
    ensures CalculatedScores(current, a) == CalculatedScores(current, b)
  {
    QualityAnyOrder(a, b, middle);
    ObservationsSorted(a.observations, b.observations);
  }

  lemma EvidenceAnyOrder(
    current: bool, a: MetricInput, b: MetricInput, middle: seq<Window>,
    values: map<MetricCode, MetricValue>)
    requires ValidInput(a) && ValidInput(b) && SamePresentation(a, b, middle)
    ensures EvidenceOf(current, a, values) == EvidenceOf(current, b, values)
  {
    SectorMembersAnyOrder(a, b, middle);
    QualityAnyOrder(a, b, middle);
    PermutationMembers(a.primary, b.primary);
    WindowsAnyOrder(a.windows, middle, b.windows, []);
  }

  /** Every metric value, the quality and the whole evidence payload are unchanged. */
  lemma EvaluationAnyOrder(current: bool, a: MetricInput, b: MetricInput, middle: seq<Window>)
    requires ValidInput(a) && ValidInput(b) && SamePresentation(a, b, middle)
    ensures Evaluation(current, a) == Evaluation(current, b)
  {
    QualityAnyOrder(a, b, middle);
    ScoresAnyOrder(current, a, b, middle);
    EvidenceAnyOrder(current, a, b, middle, Evaluation(current, a).values);
  }
}
