/** Months missing from an account's cost data
    (apps/api/src/constat_api/repositories/focus_coverage.py). */
module FocusCoverage {

  datatype Month = Month(year: int, number: int)

  datatype Date = Date(month: Month, day: int)

  datatype Period = Period(start: Date, end: Date)

  predicate IsMonth(m: Month) { 1 <= m.number <= 12 }

  /** Months counted from year zero: consecutive months have consecutive indices. */
  function Index(m: Month): int { 12 * m.year + m.number - 1 }

  predicate NotAfter(a: Month, b: Month) { a.year < b.year || (a.year == b.year && a.number <= b.number) }

  function Next(m: Month): Month { if m.number == 12 then Month(m.year + 1, 1) else Month(m.year, m.number + 1) }

  lemma OrderIsIndexOrder(a: Month, b: Month)
    requires IsMonth(a) && IsMonth(b)
    ensures NotAfter(a, b) <==> Index(a) <= Index(b)
    ensures a == b <==> Index(a) == Index(b)
  {
  }

  /** All months from first to last: the k-th label is the k-th month after the first, so they
      increase strictly, one per month, and there are as many as the range has months. */
  method MonthLabels(first: Month, last: Month) returns (labels: seq<Month>)
    requires IsMonth(first) && IsMonth(last)
    ensures |labels| == if Index(first) <= Index(last) then Index(last) - Index(first) + 1 else 0
    ensures Consecutive(labels, first)
  {
    labels := [];
    var m := first;
    OrderIsIndexOrder(m, last);
    while NotAfter(m, last)
      invariant IsMonth(m) && Index(m) == Index(first) + |labels|
      invariant NotAfter(m, last) <==> Index(m) <= Index(last)
      invariant labels != [] ==> Index(m) <= Index(last) + 1
      invariant Consecutive(labels, first)
      decreases Index(last) - Index(m)
    {
      labels := labels + [m];
      m := Next(m);
      OrderIsIndexOrder(m, last);
    }
  }

  ghost predicate Earliest(ps: set<Period>, m: Month) {
    (exists p :: p in ps && p.start.month == m) && forall p :: p in ps ==> Index(m) <= Index(p.start.month)
  }

  ghost predicate Latest(ps: set<Period>, m: Month) {
    (exists p :: p in ps && p.start.month == m) && forall p :: p in ps ==> Index(p.start.month) <= Index(m)
  }

  function StartMonths(ps: set<Period>): set<Month> { set p | p in ps :: p.start.month }

  /** First and last start month, the ends of the sorted list of periods. */
  method StartRange(ps: set<Period>) returns (first: Month, last: Month)
    requires ps != {} && forall p :: p in ps ==> IsMonth(p.start.month)
    ensures Earliest(ps, first) && Latest(ps, last) && IsMonth(first) && IsMonth(last)
  {
    var p :| p in ps;
    first, last := p.start.month, p.start.month;
    var todo := ps - {p};
    while todo != {}
      invariant todo <= ps && IsMonth(first) && IsMonth(last)
      invariant Earliest(ps - todo, first) && Latest(ps - todo, last)
      decreases |todo|
    {
      var q :| q in todo;
      ghost var done := ps - todo;
      var m := q.start.month;
      OrderIsIndexOrder(first, m);
      OrderIsIndexOrder(m, last);
      assert ps - (todo - {q}) == done + {q};
      assert q in done + {q} && forall p :: p in done ==> p in done + {q};
      if !NotAfter(first, m) { first := m; }
      if !NotAfter(m, last) { last := m; }
      todo := todo - {q};
    }
    assert ps - todo == ps;
  }

  function Absent(labels: seq<Month>, covered: set<Month>): seq<Month> {
    if labels == [] then []
    else Absent(labels[..|labels| - 1], covered) + if labels[|labels| - 1] in covered then [] else [labels[|labels| - 1]]
  }

  function SetOf(labels: seq<Month>): set<Month> { set m | m in labels }

  lemma {:induction false} AbsentMembers(labels: seq<Month>, covered: set<Month>)
    ensures forall m :: m in Absent(labels, covered) <==> m in labels && m !in covered
  {
    if labels != [] {
      AbsentMembers(labels[..|labels| - 1], covered);
      assert labels == labels[..|labels| - 1] + [labels[|labels| - 1]];
    }
  }

  ghost predicate Increasing(months: seq<Month>) {
    forall i, j :: 0 <= i < j < |months| ==> Index(months[i]) < Index(months[j])
  }

  lemma IncreasingNext(front: seq<Month>, last: Month)
    requires Increasing(front) && forall k :: 0 <= k < |front| ==> Index(front[k]) < Index(last)
    ensures Increasing(front + [last])
  {
  }

  /** The gaps keep the order of the labels. */
  lemma {:induction false} AbsentIncrease(labels: seq<Month>, covered: set<Month>)
    requires Increasing(labels)
    ensures Increasing(Absent(labels, covered))
  {
    if labels != [] {
      var front, last := labels[..|labels| - 1], labels[|labels| - 1];
      var a := Absent(front, covered);
      AbsentIncrease(front, covered);
      AbsentMembers(front, covered);
      forall k | 0 <= k < |a| ensures Index(a[k]) < Index(last) {
        assert a[k] in front;
        var m :| 0 <= m < |front| && front[m] == a[k];
        assert labels[m] == a[k];
      }
      IncreasingNext(a, last);
      assert a + [] == a;
    }
  }

  lemma OneMore(covered: set<Month>, front: seq<Month>, last: Month)
    requires last !in front
    ensures |covered * SetOf(front + [last])| == |covered * SetOf(front)| + if last in covered then 1 else 0
  {
    var before := covered * SetOf(front);
    assert covered * SetOf(front + [last]) == if last in covered then before + {last} else before;
  }

  lemma {:induction false} AbsentCount(labels: seq<Month>, covered: set<Month>)
    requires forall i, j :: 0 <= i < j < |labels| ==> labels[i] != labels[j]
    ensures |Absent(labels, covered)| + |covered * SetOf(labels)| == |labels|
  {
    if labels == [] {
      assert covered * SetOf(labels) == {};
    } else {
      var front, last := labels[..|labels| - 1], labels[|labels| - 1];
      assert labels == front + [last];
      AbsentCount(front, covered);
      OneMore(covered, front, last);
    }
  }

  /** `labels` are the consecutive months from `first` on. */
  ghost predicate Consecutive(labels: seq<Month>, first: Month) {
    forall k :: 0 <= k < |labels| ==> IsMonth(labels[k]) && Index(labels[k]) == Index(first) + k
  }

  lemma RangeMembers(labels: seq<Month>, first: Month, m: Month)
    requires Consecutive(labels, first) && IsMonth(m)
    ensures m in labels <==> Index(first) <= Index(m) < Index(first) + |labels|
  {
    if Index(first) <= Index(m) < Index(first) + |labels| {
      OrderIsIndexOrder(labels[Index(m) - Index(first)], m);
    }
  }

  method MissingFrom(labels: seq<Month>, covered: set<Month>) returns (missing: seq<Month>)
    ensures missing == Absent(labels, covered)
  {
    missing := [];
    for i := 0 to |labels|
      invariant missing == Absent(labels[..i], covered)
    {
      assert labels[..i + 1][..i] == labels[..i];
      if labels[i] !in covered { missing := missing + [labels[i]]; }
    }
    assert labels[..|labels|] == labels;
  }

  /** Covered months that lie in the range and their gaps partition the range. */
  lemma GapsPartition(labels: seq<Month>, first: Month, covered: set<Month>)
    requires Consecutive(labels, first) && forall m :: m in covered ==> m in labels
    ensures |covered| + |Absent(labels, covered)| == |labels|
  {
    AbsentCount(labels, covered);
    assert covered * SetOf(labels) == covered;
  }

  /** The gap report of one account. Covered and missing months partition the inclusive range
      from the first to the last start month: no month is both, and together they are as many as
      the range has, twelve per year of difference plus the difference in months plus one. */
  method AccountCoverage(ps: set<Period>) returns (covered: set<Month>, missing: seq<Month>, first: Month, last: Month)
    requires ps != {} && forall p :: p in ps ==> IsMonth(p.start.month)
    ensures Earliest(ps, first) && Latest(ps, last)
    ensures forall m :: m in covered <==> exists p :: p in ps && p.start.month == m
    ensures |covered| + |missing| == 12 * (last.year - first.year) + (last.number - first.number) + 1
    ensures forall m :: IsMonth(m) ==> (m in missing <==> Index(first) <= Index(m) <= Index(last) && m !in covered)
    ensures forall m :: m in covered ==> Index(first) <= Index(m) <= Index(last)
    ensures Increasing(missing)
  {
    first, last := StartRange(ps);
    covered := StartMonths(ps);
    var labels := MonthLabels(first, last);
    missing := MissingFrom(labels, covered);
    AbsentMembers(labels, covered);
    AbsentIncrease(labels, covered);
    forall m | IsMonth(m) ensures m in labels <==> Index(first) <= Index(m) <= Index(last) {
      RangeMembers(labels, first, m);
    }
    GapsPartition(labels, first, covered);
  }
}
