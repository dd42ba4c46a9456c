/** Money is conserved by every grouping, and grouping by tag refines grouping by period
    (packages/insights/chargeback/src/constat_chargeback/resolver.py). */
module ChargebackLaws {
  import opened Wrappers
  import opened Focus
  import opened Chargeback

  /** Everything booked in one period bucket, whatever the tag value. */
  function AmountIn(ps: seq<Posting>, period: CostKey): Cost {
    if ps == [] then ZERO
    else
      var front, p := AmountIn(ps[..|ps| - 1], period), ps[|ps| - 1];
      if PeriodOf(p.key) == period then Plus(front, p.cost) else front
  }

  /** The sum of the aggregates of one period bucket. */
  function TotalIn(results: seq<AggregatedCost>, period: CostKey): Cost {
    if results == [] then ZERO
    else
      var front, r := TotalIn(results[..|results| - 1], period), results[|results| - 1];
      if PeriodOf(r.key) == period then Plus(front, r.cost) else front
  }

  /** The charge belongs to the bucket, field by field: the canonical service name counts when
      there is one, the native one otherwise. */
  predicate InBucket(c: Charge, period: CostKey) {
    && period.tagValue == None
    && c.account == period.account
    && (if c.canonical.Some? && c.canonical.value != "" then c.canonical.value else c.service) == period.service
    && c.periodStart == period.periodStart && c.periodEnd == period.periodEnd && c.currency == period.currency
  }

  /** The reference: add up the charges of the bucket directly, and count them. */
  function DirectSum(charges: seq<Charge>, period: CostKey): Cost {
    if charges == [] then ZERO
    else
      var front, c := DirectSum(charges[..|charges| - 1], period), charges[|charges| - 1];
      if InBucket(c, period) then Plus(front, c.cost) else front
  }

  function DirectCount(charges: seq<Charge>, period: CostKey): nat {
    if charges == [] then 0
    else DirectCount(charges[..|charges| - 1], period) + Bit(InBucket(charges[|charges| - 1], period))
  }

  lemma KeyIsItsBucket(c: Charge, period: CostKey)
    ensures KeyOf(c, None) == period <==> InBucket(c, period)
  {
  }

  // ---------------------------------------------------------------- grouping conserves

  ghost predicate Distinct(keys: seq<CostKey>) {
    forall i, j :: 0 <= i < j < |keys| ==> keys[i] != keys[j]
  }

  lemma {:induction false} KeysAreDistinct(ps: seq<Posting>)
    ensures Distinct(KeysOf(ps))
  {
    if ps != [] {
      KeysAreDistinct(ps[..|ps| - 1]);
    }
  }

  function KeysAmount(keys: seq<CostKey>, ps: seq<Posting>, period: CostKey): Cost {
    if keys == [] then ZERO
    else
      var front, k := KeysAmount(keys[..|keys| - 1], ps, period), keys[|keys| - 1];
      if PeriodOf(k) == period then Plus(front, AmountAt(ps, k)) else front
  }

  lemma {:induction false} TotalIsKeysAmount(keys: seq<CostKey>, ps: seq<Posting>, period: CostKey)
    ensures TotalIn(ResultsFor(keys, ps), period) == KeysAmount(keys, ps, period)
  {
    if keys != [] {
      var r := ResultsFor(keys, ps);
      assert r[..|r| - 1] == ResultsFor(keys[..|keys| - 1], ps);
      TotalIsKeysAmount(keys[..|keys| - 1], ps, period);
    }
  }

  lemma {:induction false} OneMorePosting(keys: seq<CostKey>, ps: seq<Posting>, p: Posting, period: CostKey)
    requires Distinct(keys)
    ensures KeysAmount(keys, ps + [p], period)
      == if p.key in keys && PeriodOf(p.key) == period then Plus(KeysAmount(keys, ps, period), p.cost)
         else KeysAmount(keys, ps, period)
  {
    if keys != [] {
      var front, k := keys[..|keys| - 1], keys[|keys| - 1];
      assert keys == front + [k] && k !in front;
      assert (ps + [p])[..|ps|] == ps;
      OneMorePosting(front, ps, p, period);
    }
  }

  /** Grouping loses and invents nothing: the aggregates of a bucket add up to what was booked
      in it. */
  lemma {:induction false} GroupingConserves(ps: seq<Posting>, period: CostKey)
    ensures TotalIn(Aggregates(ps), period) == AmountIn(ps, period)
  {
    TotalIsKeysAmount(KeysOf(ps), ps, period);
    KeysAmountIsAmount(ps, period);
  }

  lemma {:induction false} KeysAmountIsAmount(ps: seq<Posting>, period: CostKey)
    ensures KeysAmount(KeysOf(ps), ps, period) == AmountIn(ps, period)
  {
    if ps != [] {
      var front, p := ps[..|ps| - 1], ps[|ps| - 1];
      assert ps == front + [p];
      KeysAmountIsAmount(front, period);
      KeysAreDistinct(front);
      OneMorePosting(KeysOf(front), front, p, period);
      if p.key !in KeysOf(front) {
        UnbookedIsZero(front, p.key);
        var keys := KeysOf(front) + [p.key];
        assert keys[..|keys| - 1] == KeysOf(front);
        assert AmountAt(ps, p.key) == p.cost;
      }
    }
  }

  lemma {:induction false} PeriodAmountIsDirect(charges: seq<Charge>, period: CostKey)
    ensures AmountIn(PeriodPostings(charges), period) == DirectSum(charges, period)
  {
    if charges != [] {
      var ps := PeriodPostings(charges);
      assert ps[..|ps| - 1] == PeriodPostings(charges[..|charges| - 1]);
      PeriodAmountIsDirect(charges[..|charges| - 1], period);
    }
  }

  lemma {:induction false} AggregateOfKey(ps: seq<Posting>, i: nat)
    requires i < |Aggregates(ps)|
    ensures forall j :: 0 <= j < |Aggregates(ps)| && j != i ==> Aggregates(ps)[j].key != Aggregates(ps)[i].key
  {
    KeysAreDistinct(ps);
  }

  /** A key is in the report exactly when something was booked under it, and more bookings only add
      keys at the end. */
  lemma {:induction false} KeysAreBooked(ps: seq<Posting>, k: CostKey)
    ensures k in KeysOf(ps) <==> exists i :: 0 <= i < |ps| && ps[i].key == k
  {
    if ps != [] {
      KeysAreBooked(ps[..|ps| - 1], k);
    }
  }

  lemma {:induction false} KeysComeInOrder(ps: seq<Posting>, n: nat)
    requires n <= |ps|
    ensures |KeysOf(ps[..n])| <= |KeysOf(ps)| && KeysOf(ps)[..|KeysOf(ps[..n])|] == KeysOf(ps[..n])
  {
    if n < |ps| {
      KeysComeInOrder(ps[..|ps| - 1], n);
      assert ps[..|ps| - 1][..n] == ps[..n];
    } else {
      assert ps[..n] == ps;
    }
  }

  /** By period: one aggregate per bucket, and it holds the direct sum of its charges and their
      number. */
  lemma PeriodAggregatesAreExact(charges: seq<Charge>, i: nat)
    requires i < |Aggregates(PeriodPostings(charges))|
    ensures var rs := Aggregates(PeriodPostings(charges));
      && rs[i].cost == DirectSum(charges, rs[i].key) && rs[i].count == DirectCount(charges, rs[i].key)
      && Drift(rs[i]) == DirectSum(charges, rs[i].key).amortized - DirectSum(charges, rs[i].key).billed
      && forall j :: 0 <= j < |rs| && j != i ==> rs[j].key != rs[i].key
  {
    var ps := PeriodPostings(charges);
    AggregateOfKey(ps, i);
    KeyIsAPeriod(charges, KeysOf(ps)[i], i);
    AmountIsDirect(charges, KeysOf(ps)[i]);
  }

  lemma {:induction false} KeyIsAPeriod(charges: seq<Charge>, k: CostKey, i: nat)
    requires i < |KeysOf(PeriodPostings(charges))| && k == KeysOf(PeriodPostings(charges))[i]
    ensures PeriodOf(k) == k
  {
    var ps := PeriodPostings(charges);
    if ps != [] {
      assert ps[..|ps| - 1] == PeriodPostings(charges[..|charges| - 1]);
      if i < |KeysOf(ps[..|ps| - 1])| { KeyIsAPeriod(charges[..|charges| - 1], k, i); }
    }
  }

  lemma {:induction false} AmountIsDirect(charges: seq<Charge>, period: CostKey)
    ensures AmountAt(PeriodPostings(charges), period) == DirectSum(charges, period)
    ensures CountAt(PeriodPostings(charges), period) == DirectCount(charges, period)
  {
    if charges != [] {
      var ps := PeriodPostings(charges);
      assert ps[..|ps| - 1] == PeriodPostings(charges[..|charges| - 1]);
      AmountIsDirect(charges[..|charges| - 1], period);
    }
  }

  // ---------------------------------------------------------------- one charge, split by tag

  lemma {:induction false} AmountConcat(a: seq<Posting>, b: seq<Posting>, period: CostKey)
    ensures AmountIn(a + b, period) == Plus(AmountIn(a, period), AmountIn(b, period))
  {
    if b == [] {
      assert a + b == a;
    } else {
      assert (a + b)[..|a + b| - 1] == a + b[..|b| - 1];
      AmountConcat(a, b[..|b| - 1], period);
    }
  }

  lemma {:induction false} RowsAmount(c: Charge, tagKey: string, n: nat, period: CostKey)
    requires n <= |c.tags| && n <= |c.perRowCosts|
    ensures AmountIn(RowPostings(c, tagKey, n), period) == if KeyOf(c, None) == period then Sum(c.perRowCosts[..n]) else ZERO
  {
    if n > 0 {
      RowsAmount(c, tagKey, n - 1, period);
      assert c.perRowCosts[..n][..n - 1] == c.perRowCosts[..n - 1];
      var front := RowPostings(c, tagKey, n - 1);
      assert RowPostings(c, tagKey, n)[..|front|] == front;
    }
  }

  /** The weights of the fallback sum to one, in exact arithmetic. */
  lemma {:induction false} CountsAmount(c: Charge, values: seq<string>, distinct: seq<string>, period: CostKey)
    requires values != []
    ensures AmountIn(CountPostings(c, values, distinct), period)
      == if NativeKey(c, None) == period then Scale(c.cost, OccurrencesIn(values, distinct) as real / |values| as real) else ZERO
  {
    if distinct != [] {
      var front, v := distinct[..|distinct| - 1], distinct[|distinct| - 1];
      CountsAmount(c, values, front, period);
      var ps := CountPostings(c, values, front);
      assert CountPostings(c, values, distinct)[..|ps|] == ps;
      Weights(c.cost, OccurrencesIn(values, front), Occurrences(values, v), |values|);
    }
  }

  lemma Weights(cost: Cost, a: nat, b: nat, n: nat)
    requires n > 0
    ensures Plus(Scale(cost, a as real / n as real), Scale(cost, b as real / n as real)) == Scale(cost, (a + b) as real / n as real)
  {
    var x, y, w := a as real / n as real, b as real / n as real, (a + b) as real / n as real;
    assert x + y == w;
    assert cost.billed * x + cost.billed * y == cost.billed * (x + y);
    assert cost.amortized * x + cost.amortized * y == cost.amortized * (x + y);
  }

  lemma WholeWeight(cost: Cost, n: nat)
    requires n > 0
    ensures Scale(cost, n as real / n as real) == cost
  {
    var w := n as real / n as real;
    assert w == 1.0;
  }

  lemma FallbackAmount(c: Charge, tagKey: string, period: CostKey)
    ensures AmountIn(FallbackPostings(c, tagKey), period) == if NativeKey(c, None) == period then c.cost else ZERO
  {
    var values := ValuesOf(c.tags, tagKey);
    if values == [] {
      OnePosting(Posting(NativeKey(c, Some(UNTAGGED)), c.cost), period);
    } else {
      CountsAmount(c, values, DistinctOf(values), period);
      OccurrencesAddUp(values);
      WholeWeight(c.cost, |values|);
    }
  }

  lemma OnePosting(p: Posting, period: CostKey)
    ensures AmountIn([p], period) == if PeriodOf(p.key) == period then p.cost else ZERO
  {
    assert [p][..0] == [];
  }

  /** When a charge's split by tag adds up to its cost in its own bucket: with per-row costs,
      when those do; without, always, except that the row-count fallback books under the native
      service, so a nonzero charge whose canonical service differs is booked elsewhere. */
  predicate KeepsItsCost(c: Charge) {
    if c.perRowCosts != [] then Sum(c.perRowCosts) == c.cost
    else c.tags == [] || ServiceKey(c) == c.service || c.cost == ZERO
  }

  lemma ChargeAmount(c: Charge, tagKey: string, period: CostKey)
    requires !ZipRaises(c) && KeepsItsCost(c)
    ensures AmountIn(TagPostingsOf(c, tagKey), period) == if KeyOf(c, None) == period then c.cost else ZERO
  {
    if c.perRowCosts != [] {
      RowsAmount(c, tagKey, |c.tags|, period);
      assert c.perRowCosts[..|c.tags|] == c.perRowCosts;
    } else if c.tags != [] {
      FallbackAmount(c, tagKey, period);
    } else {
      OnePosting(Posting(KeyOf(c, Some(UNTAGGED)), c.cost), period);
    }
  }

  /** ... and exactly then, for every charge and every tag key. */
  lemma SplitAddsUpExactlyWhen(c: Charge, tagKey: string)
    requires !ZipRaises(c)
    ensures AmountIn(TagPostingsOf(c, tagKey), KeyOf(c, None)) == c.cost <==> KeepsItsCost(c)
  {
    if KeepsItsCost(c) {
      ChargeAmount(c, tagKey, KeyOf(c, None));
    } else if c.perRowCosts != [] {
      RowsAmount(c, tagKey, |c.tags|, KeyOf(c, None));
      assert c.perRowCosts[..|c.tags|] == c.perRowCosts;
    } else {
      FallbackAmount(c, tagKey, KeyOf(c, None));
    }
  }

  // ---------------------------------------------------------------- tag refines period

  lemma {:induction false} TagAmountIsDirect(charges: seq<Charge>, tagKey: string, period: CostKey)
    requires NoneRaises(charges) && forall i :: 0 <= i < |charges| ==> KeepsItsCost(charges[i])
    ensures AmountIn(TagPostings(charges, tagKey), period) == DirectSum(charges, period)
  {
    if charges != [] {
      var front, c := charges[..|charges| - 1], charges[|charges| - 1];
      TagAmountIsDirect(front, tagKey, period);
      ChargeAmount(c, tagKey, period);
      AmountConcat(TagPostings(front, tagKey), TagPostingsOf(c, tagKey), period);
    }
  }

  /** For any tag key and any bucket (account, service key, period, currency): the aggregates by
      tag, summed over all tag values, are the aggregate by period, billed and amortized. */
  lemma TagRefinesPeriod(charges: seq<Charge>, tagKey: string, period: CostKey)
    requires NoneRaises(charges) && forall i :: 0 <= i < |charges| ==> KeepsItsCost(charges[i])
    ensures TotalIn(Aggregates(TagPostings(charges, tagKey)), period) == TotalIn(Aggregates(PeriodPostings(charges)), period)
  {
    GroupingConserves(TagPostings(charges, tagKey), period);
    GroupingConserves(PeriodPostings(charges), period);
    TagAmountIsDirect(charges, tagKey, period);
    PeriodAmountIsDirect(charges, period);
  }

  /** One charge that falls back under a native name: its own bucket gets nothing in the tag view. */
  lemma {:induction false} FallbackMissesItsBucket(c: Charge, tagKey: string)
    requires c.perRowCosts == [] && c.tags != [] && ServiceKey(c) != c.service
    ensures TotalIn(Aggregates(TagPostings([c], tagKey)), KeyOf(c, None)) == ZERO
  {
    GroupingConserves(TagPostings([c], tagKey), KeyOf(c, None));
    assert [c][..0] == [] && TagPostings([], tagKey) + FallbackPostings(c, tagKey) == FallbackPostings(c, tagKey);
    FallbackAmount(c, tagKey, KeyOf(c, None));
  }

  lemma {:induction false} PeriodOfOne(c: Charge)
    ensures TotalIn(Aggregates(PeriodPostings([c])), KeyOf(c, None)) == c.cost
  {
    var k := KeyOf(c, None);
    GroupingConserves(PeriodPostings([c]), k);
    PeriodAmountIsDirect([c], k);
    assert [c][..0] == [];
    assert DirectSum([c], k) == Plus(DirectSum([], k), c.cost);
  }

  /** A charge of 10 with a canonical service, tags and no per-row costs: the tag view books it
      under the native name, and its own bucket gets nothing. */
  lemma {:induction false} FallbackMissesCanonicalBucket(c: Charge)
    requires c == Charge("1", "Amazon RDS", Some("managed_postgres"), 0, 30, Cost(10.0, 10.0),
                         [map["app" := "web"]], [], "USD", NO_LABELS)
    ensures TotalIn(Aggregates(TagPostings([c], "app")), KeyOf(c, None)) == ZERO
    ensures TotalIn(Aggregates(PeriodPostings([c])), KeyOf(c, None)) == Cost(10.0, 10.0)
  {
    assert c.service[0] != ServiceKey(c)[0];
    FallbackMissesItsBucket(c, "app");
    PeriodOfOne(c);
  }
}
