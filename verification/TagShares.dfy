/** Which tag value each amount is attributed to, and what becomes of it in storage, said from the
    tags and costs of the input rows alone
    (packages/insights/chargeback/src/constat_chargeback/resolver.py). */
module TagShares {
  import opened Wrappers
  import opened Focus
  import opened Chargeback
  import opened ChargebackLaws

  datatype Booked = Booked(cost: Cost, count: nat)

  const NOTHING := Booked(ZERO, 0)

  function Add(a: Booked, b: Booked): Booked { Booked(Plus(a.cost, b.cost), a.count + b.count) }

  function BookedAt(ps: seq<Posting>, k: CostKey): Booked { Booked(AmountAt(ps, k), CountAt(ps, k)) }

  // ---------------------------------------------------------------- the reference

  /** The row counts for the value: its dict says so, or it says nothing and the value is the
      untagged one. An empty value says nothing. */
  predicate Bears(d: Tags, tagKey: string, v: string) {
    if v == "__untagged__" then tagKey !in d || d[tagKey] == "" || d[tagKey] == "__untagged__"
    else v != "" && tagKey in d && d[tagKey] == v
  }

  /** Sum and number of those of the first `n` rows that count for the value. */
  function RowsBearing(dicts: seq<Tags>, costs: seq<Cost>, tagKey: string, v: string, n: nat): Booked
    requires n <= |dicts| && n <= |costs|
  {
    if n == 0 then NOTHING
    else
      Add(RowsBearing(dicts, costs, tagKey, v, n - 1), if Bears(dicts[n - 1], tagKey, v) then Booked(costs[n - 1], 1) else NOTHING)
  }

  /** How many rows carry the key, and how many carry it with this value. */
  function RowsCarrying(dicts: seq<Tags>, tagKey: string): nat {
    if dicts == [] then 0 else RowsCarrying(dicts[..|dicts| - 1], tagKey) + Bit(tagKey in dicts[|dicts| - 1])
  }

  function RowsValued(dicts: seq<Tags>, tagKey: string, v: string): nat {
    if dicts == [] then 0
    else
      var d := dicts[|dicts| - 1];
      RowsValued(dicts[..|dicts| - 1], tagKey, v) + Bit(tagKey in d && d[tagKey] == v)
  }

  /** The charge would be in the bucket if only its native name counted. */
  predicate InNativeBucket(c: Charge, period: CostKey) {
    && period.tagValue == None && c.account == period.account && c.service == period.service
    && c.periodStart == period.periodStart && c.periodEnd == period.periodEnd && c.currency == period.currency
  }

  /** What the charge contributes to the value in the bucket: the rows that count for it; without
      per-row costs its share of the rows that carry the key, under the native name; everything
      untagged when there is nothing to go by. */
  function Share(c: Charge, tagKey: string, v: string, period: CostKey): Booked
    requires !ZipRaises(c)
  {
    if c.perRowCosts != [] then
      if InBucket(c, period) then RowsBearing(c.tags, c.perRowCosts, tagKey, v, |c.tags|) else NOTHING
    else if c.tags == [] then
      if InBucket(c, period) && v == "__untagged__" then Booked(c.cost, 1) else NOTHING
    else if !InNativeBucket(c, period) then NOTHING
    else if RowsCarrying(c.tags, tagKey) == 0 then
      if v == "__untagged__" then Booked(c.cost, 1) else NOTHING
    else if RowsValued(c.tags, tagKey, v) == 0 then NOTHING
    else Booked(Scale(c.cost, RowsValued(c.tags, tagKey, v) as real / RowsCarrying(c.tags, tagKey) as real), 1)
  }

  function DirectShare(charges: seq<Charge>, tagKey: string, v: string, period: CostKey): Booked
    requires NoneRaises(charges)
  {
    if charges == [] then NOTHING
    else
      var n := |charges| - 1;
      Add(DirectShare(charges[..n], tagKey, v, period), Share(charges[n], tagKey, v, period))
  }

  // ---------------------------------------------------------------- one charge

  lemma {:induction false} BookedConcat(a: seq<Posting>, b: seq<Posting>, k: CostKey)
    ensures BookedAt(a + b, k) == Add(BookedAt(a, k), BookedAt(b, k))
  {
    if b == [] {
      assert a + b == a;
    } else {
      assert (a + b)[..|a + b| - 1] == a + b[..|b| - 1];
      BookedConcat(a, b[..|b| - 1], k);
    }
  }

  lemma BookedOne(p: Posting, k: CostKey)
    ensures BookedAt([p], k) == if p.key == k then Booked(p.cost, 1) else NOTHING
  {
    assert [p][..0] == [] && AmountAt([], k) == ZERO && CountAt([], k) == 0;
    assert AmountAt([p], k) == if p.key == k then Plus(AmountAt([], k), p.cost) else AmountAt([], k);
    assert CountAt([p], k) == CountAt([], k) + if p.key == k then 1 else 0;
  }

  lemma RowKey(c: Charge, d: Tags, tagKey: string, v: string, period: CostKey)
    requires period.tagValue == None
    ensures KeyOf(c, Some(TagValueOf(d, tagKey))) == period.(tagValue := Some(v)) <==> InBucket(c, period) && Bears(d, tagKey, v)
  {
  }

  lemma RowPosting(c: Charge, tagKey: string, n: nat, v: string, period: CostKey)
    requires period.tagValue == None && n < |c.tags| == |c.perRowCosts|
    ensures BookedAt([Posting(KeyOf(c, Some(TagValueOf(c.tags[n], tagKey))), c.perRowCosts[n])], period.(tagValue := Some(v)))
      == if InBucket(c, period) && Bears(c.tags[n], tagKey, v) then Booked(c.perRowCosts[n], 1) else NOTHING
  {
    BookedOne(Posting(KeyOf(c, Some(TagValueOf(c.tags[n], tagKey))), c.perRowCosts[n]), period.(tagValue := Some(v)));
    RowKey(c, c.tags[n], tagKey, v, period);
  }

  lemma NextRowBooks(c: Charge, tagKey: string, n: nat, v: string, period: CostKey)
    requires period.tagValue == None && n < |c.tags| == |c.perRowCosts|
    ensures BookedAt(RowPostings(c, tagKey, n + 1), period.(tagValue := Some(v)))
      == Add(BookedAt(RowPostings(c, tagKey, n), period.(tagValue := Some(v))),
             if InBucket(c, period) && Bears(c.tags[n], tagKey, v) then Booked(c.perRowCosts[n], 1) else NOTHING)
  {
    BookedConcat(RowPostings(c, tagKey, n), [Posting(KeyOf(c, Some(TagValueOf(c.tags[n], tagKey))), c.perRowCosts[n])],
                 period.(tagValue := Some(v)));
    RowPosting(c, tagKey, n, v, period);
  }

  lemma {:induction false} RowsShare(c: Charge, tagKey: string, n: nat, v: string, period: CostKey)
    requires period.tagValue == None && n <= |c.tags| == |c.perRowCosts|
    ensures BookedAt(RowPostings(c, tagKey, n), period.(tagValue := Some(v)))
      == if InBucket(c, period) then RowsBearing(c.tags, c.perRowCosts, tagKey, v, n) else NOTHING
  {
    if n > 0 {
      RowsShare(c, tagKey, n - 1, v, period);
      NextRowBooks(c, tagKey, n - 1, v, period);
    }
  }

  lemma {:induction false} ValuesCount(dicts: seq<Tags>, tagKey: string, v: string)
    ensures |ValuesOf(dicts, tagKey)| == RowsCarrying(dicts, tagKey)
    ensures Occurrences(ValuesOf(dicts, tagKey), v) == RowsValued(dicts, tagKey, v)
  {
    if dicts != [] {
      var front, d := ValuesOf(dicts[..|dicts| - 1], tagKey), dicts[|dicts| - 1];
      ValuesCount(dicts[..|dicts| - 1], tagKey, v);
      if tagKey in d {
        assert (front + [d[tagKey]])[..|front|] == front;
      } else {
        assert front + [] == front;
      }
    }
  }

  lemma ValuePosting(c: Charge, values: seq<string>, last: string, v: string, period: CostKey)
    requires values != [] && period.tagValue == None
    ensures BookedAt([Posting(NativeKey(c, Some(last)), Scale(c.cost, Occurrences(values, last) as real / |values| as real))],
                     period.(tagValue := Some(v)))
      == if InNativeBucket(c, period) && v == last then ValueShare(c, values, v) else NOTHING
  {
    BookedOne(Posting(NativeKey(c, Some(last)), Scale(c.cost, Occurrences(values, last) as real / |values| as real)),
              period.(tagValue := Some(v)));
  }

  function ValueShare(c: Charge, values: seq<string>, v: string): Booked
    requires values != []
  {
    Booked(Scale(c.cost, Occurrences(values, v) as real / |values| as real), 1)
  }

  lemma FrontOrLast<T>(s: seq<T>, x: T)
    requires s != [] && forall i, j :: 0 <= i < j < |s| ==> s[i] != s[j]
    ensures x in s <==> x in s[..|s| - 1] || x == s[|s| - 1]
    ensures !(x in s[..|s| - 1] && x == s[|s| - 1])
    ensures var front := s[..|s| - 1]; forall i, j :: 0 <= i < j < |front| ==> front[i] != front[j]
  {
    assert s == s[..|s| - 1] + [s[|s| - 1]];
  }

  lemma {:induction false} CountsShare(c: Charge, values: seq<string>, distinct: seq<string>, v: string, period: CostKey)
    requires values != [] && period.tagValue == None
    requires forall i, j :: 0 <= i < j < |distinct| ==> distinct[i] != distinct[j]
    ensures BookedAt(CountPostings(c, values, distinct), period.(tagValue := Some(v)))
      == if InNativeBucket(c, period) && v in distinct then ValueShare(c, values, v) else NOTHING
  {
    if distinct != [] {
      var last := distinct[|distinct| - 1];
      FrontOrLast(distinct, v);
      CountsShare(c, values, distinct[..|distinct| - 1], v, period);
      assert distinct == distinct[..|distinct| - 1] + [last];
      NextValueShare(c, values, distinct[..|distinct| - 1], last, v, period);
    }
  }

  lemma NextValueShare(c: Charge, values: seq<string>, front: seq<string>, last: string, v: string, period: CostKey)
    requires values != [] && period.tagValue == None
    ensures BookedAt(CountPostings(c, values, front + [last]), period.(tagValue := Some(v)))
      == Add(BookedAt(CountPostings(c, values, front), period.(tagValue := Some(v))),
             if InNativeBucket(c, period) && v == last then ValueShare(c, values, v) else NOTHING)
  {
    var p := Posting(NativeKey(c, Some(last)), Scale(c.cost, Occurrences(values, last) as real / |values| as real));
    assert (front + [last])[..|front|] == front;
    assert CountPostings(c, values, front + [last]) == CountPostings(c, values, front) + [p];
    BookedConcat(CountPostings(c, values, front), [p], period.(tagValue := Some(v)));
    ValuePosting(c, values, last, v, period);
  }

  lemma FallbackShare(c: Charge, tagKey: string, v: string, period: CostKey)
    requires period.tagValue == None && c.perRowCosts == [] && c.tags != []
    ensures BookedAt(FallbackPostings(c, tagKey), period.(tagValue := Some(v))) == Share(c, tagKey, v, period)
  {
    var values := ValuesOf(c.tags, tagKey);
    ValuesCount(c.tags, tagKey, v);
    if values == [] {
      BookedOne(Posting(NativeKey(c, Some(UNTAGGED)), c.cost), period.(tagValue := Some(v)));
    } else {
      DistinctIsDistinct(values);
      AbsentHasNoOccurrence(values, v);
      CountsShare(c, values, DistinctOf(values), v, period);
    }
  }

  /** A charge books under each value of each bucket its share, and nothing else. */
  lemma ChargeShare(c: Charge, tagKey: string, v: string, period: CostKey)
    requires period.tagValue == None && !ZipRaises(c)
    ensures BookedAt(TagPostingsOf(c, tagKey), period.(tagValue := Some(v))) == Share(c, tagKey, v, period)
  {
    if c.perRowCosts != [] {
      RowsShare(c, tagKey, |c.tags|, v, period);
    } else if c.tags != [] {
      FallbackShare(c, tagKey, v, period);
    } else {
      BookedOne(Posting(KeyOf(c, Some(UNTAGGED)), c.cost), period.(tagValue := Some(v)));
    }
  }

  // ---------------------------------------------------------------- all charges

  lemma {:induction false} PostingsShare(charges: seq<Charge>, tagKey: string, v: string, period: CostKey)
    requires period.tagValue == None && NoneRaises(charges)
    ensures BookedAt(TagPostings(charges, tagKey), period.(tagValue := Some(v))) == DirectShare(charges, tagKey, v, period)
  {
    if charges != [] {
      var n := |charges| - 1;
      PostingsShare(charges[..n], tagKey, v, period);
      ChargeShare(charges[n], tagKey, v, period);
      BookedConcat(TagPostings(charges[..n], tagKey), TagPostingsOf(charges[n], tagKey), period.(tagValue := Some(v)));
    }
  }

  /** The report shows this under the key: its aggregate says so, and without one it is nothing. */
  ghost predicate Shows(results: seq<AggregatedCost>, k: CostKey, b: Booked) {
    && (forall i :: 0 <= i < |results| && results[i].key == k ==> results[i].cost == b.cost && results[i].count == b.count)
    && ((forall i :: 0 <= i < |results| ==> results[i].key != k) ==> b == NOTHING)
  }

  lemma ReportShowsBooked(ps: seq<Posting>, k: CostKey)
    ensures Shows(Aggregates(ps), k, BookedAt(ps, k))
  {
    var rs := Aggregates(ps);
    UnbookedIsZero(ps, k);
    if forall i :: 0 <= i < |rs| ==> rs[i].key != k {
      forall i | 0 <= i < |KeysOf(ps)| ensures KeysOf(ps)[i] != k { assert rs[i].key == KeysOf(ps)[i]; }
    }
  }

  /** By tag: for every bucket and every value, the report shows the sum and the number of what
      the input rows and charges contribute to that value, each under its own tags. */
  lemma TagReportIsExact(charges: seq<Charge>, tagKey: string, v: string, period: CostKey)
    requires period.tagValue == None && NoneRaises(charges)
    ensures Shows(Aggregates(TagPostings(charges, tagKey)), period.(tagValue := Some(v)), DirectShare(charges, tagKey, v, period))
  {
    ReportShowsBooked(TagPostings(charges, tagKey), period.(tagValue := Some(v)));
    PostingsShare(charges, tagKey, v, period);
  }

  /** Each aggregate of the report carries a tag value and has its key for itself. */
  lemma TagAggregatesAreTagged(charges: seq<Charge>, tagKey: string, i: nat)
    requires NoneRaises(charges) && i < |Aggregates(TagPostings(charges, tagKey))|
    ensures var rs := Aggregates(TagPostings(charges, tagKey));
      && rs[i].key.tagValue.Some?
      && forall j :: 0 <= j < |rs| && j != i ==> rs[j].key != rs[i].key
  {
    AggregateOfKey(TagPostings(charges, tagKey), i);
    KeysAreTagged(charges, tagKey);
    KeyIsPosted(TagPostings(charges, tagKey), i);
  }

  lemma {:induction false} KeyIsPosted(ps: seq<Posting>, i: nat)
    requires i < |KeysOf(ps)|
    ensures exists k :: 0 <= k < |ps| && ps[k].key == KeysOf(ps)[i]
  {
    var front := ps[..|ps| - 1];
    if i < |KeysOf(front)| {
      KeyIsPosted(front, i);
      var k :| 0 <= k < |front| && front[k].key == KeysOf(front)[i];
      assert ps[k].key == KeysOf(ps)[i];
    } else {
      assert ps[|front|].key == KeysOf(ps)[i];
    }
  }

  lemma {:induction false} KeysAreTagged(charges: seq<Charge>, tagKey: string)
    requires NoneRaises(charges)
    ensures forall k :: 0 <= k < |TagPostings(charges, tagKey)| ==> TagPostings(charges, tagKey)[k].key.tagValue.Some?
  {
    if charges != [] {
      KeysAreTagged(charges[..|charges| - 1], tagKey);
      var c := charges[|charges| - 1];
      if c.perRowCosts != [] {
        RowKeysAreTagged(c, tagKey, |c.tags|);
      } else if c.tags != [] && ValuesOf(c.tags, tagKey) != [] {
        CountKeysAreTagged(c, ValuesOf(c.tags, tagKey), DistinctOf(ValuesOf(c.tags, tagKey)));
      }
    }
  }

  lemma {:induction false} RowKeysAreTagged(c: Charge, tagKey: string, n: nat)
    requires n <= |c.tags| && n <= |c.perRowCosts|
    ensures forall k :: 0 <= k < |RowPostings(c, tagKey, n)| ==> RowPostings(c, tagKey, n)[k].key.tagValue.Some?
  {
    if n > 0 { RowKeysAreTagged(c, tagKey, n - 1); }
  }

  lemma {:induction false} CountKeysAreTagged(c: Charge, values: seq<string>, distinct: seq<string>)
    requires values != []
    ensures forall k :: 0 <= k < |CountPostings(c, values, distinct)| ==> CountPostings(c, values, distinct)[k].key.tagValue.Some?
  {
    if distinct != [] { CountKeysAreTagged(c, values, distinct[..|distinct| - 1]); }
  }
}
