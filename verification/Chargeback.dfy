/** Chargeback aggregation by period and by tag
    (packages/insights/chargeback/src/constat_chargeback/resolver.py). */
module Chargeback {
  import opened Wrappers
  import opened Focus

  const UNTAGGED := "__untagged__"

  /** The grouping key; a period aggregate has no tag value. */
  datatype CostKey = CostKey(
    account: string, service: string, periodStart: int, periodEnd: int, currency: string, tagValue: Option<string>)

  function PeriodOf(k: CostKey): CostKey { k.(tagValue := None) }

  /** The native key is what the row-count fallback uses; the others merge canonical services. */
  function NativeKey(c: Charge, tagValue: Option<string>): CostKey {
    CostKey(c.account, c.service, c.periodStart, c.periodEnd, c.currency, tagValue)
  }

  function KeyOf(c: Charge, tagValue: Option<string>): CostKey {
    CostKey(c.account, ServiceKey(c), c.periodStart, c.periodEnd, c.currency, tagValue)
  }

  datatype AggregatedCost = AggregatedCost(key: CostKey, cost: Cost, count: nat)

  function Drift(a: AggregatedCost): real { a.cost.amortized - a.cost.billed }

  // ---------------------------------------------------------------- postings

  /** One amount booked under one key. */
  datatype Posting = Posting(key: CostKey, cost: Cost)

  /** Keys in the order they are first booked. */
  function KeysOf(ps: seq<Posting>): seq<CostKey> {
    if ps == [] then []
    else
      var front, k := KeysOf(ps[..|ps| - 1]), ps[|ps| - 1].key;
      if k in front then front else front + [k]
  }

  function AmountAt(ps: seq<Posting>, k: CostKey): Cost {
    if ps == [] then ZERO
    else
      var front, p := AmountAt(ps[..|ps| - 1], k), ps[|ps| - 1];
      if p.key == k then Plus(front, p.cost) else front
  }

  function CountAt(ps: seq<Posting>, k: CostKey): nat {
    if ps == [] then 0
    else CountAt(ps[..|ps| - 1], k) + if ps[|ps| - 1].key == k then 1 else 0
  }

  function ResultsFor(keys: seq<CostKey>, ps: seq<Posting>): (r: seq<AggregatedCost>)
    ensures |r| == |keys|
  {
    seq(|keys|, i requires 0 <= i < |keys| => AggregatedCost(keys[i], AmountAt(ps, keys[i]), CountAt(ps, keys[i])))
  }

  /** One aggregate per key, in order, with the amounts booked under it. */
  function Aggregates(ps: seq<Posting>): seq<AggregatedCost> { ResultsFor(KeysOf(ps), ps) }

  // ---------------------------------------------------------------- what a charge books

  function PeriodPostings(charges: seq<Charge>): (r: seq<Posting>)
    ensures |r| == |charges|
  {
    seq(|charges|, i requires 0 <= i < |charges| => Posting(KeyOf(charges[i], None), charges[i].cost))
  }

  function TagValueOf(tags: Tags, tagKey: string): string {
    if tagKey in tags && tags[tagKey] != "" then tags[tagKey] else UNTAGGED
  }

  /** Per-row attribution: each input row's own cost goes to its tag value. */
  function RowPostings(c: Charge, tagKey: string, n: nat): seq<Posting>
    requires n <= |c.tags| && n <= |c.perRowCosts|
  {
    if n == 0 then []
    else
      RowPostings(c, tagKey, n - 1)
      + [Posting(KeyOf(c, Some(TagValueOf(c.tags[n - 1], tagKey))), c.perRowCosts[n - 1])]
  }

  /** The tag values of the rows that carry the key, in order, an empty value included. */
  function ValuesOf(tags: seq<Tags>, tagKey: string): seq<string> {
    if tags == [] then []
    else ValuesOf(tags[..|tags| - 1], tagKey) + if tagKey in tags[|tags| - 1] then [tags[|tags| - 1][tagKey]] else []
  }

  /** Row-count attribution: the cost is split by how many rows carry each value. */
  function CountPostings(c: Charge, values: seq<string>, distinct: seq<string>): seq<Posting>
    requires values != []
  {
    if distinct == [] then []
    else
      var v := distinct[|distinct| - 1];
      CountPostings(c, values, distinct[..|distinct| - 1])
      + [Posting(NativeKey(c, Some(v)), Scale(c.cost, Occurrences(values, v) as real / |values| as real))]
  }

  function FallbackPostings(c: Charge, tagKey: string): seq<Posting> {
    var values := ValuesOf(c.tags, tagKey);
    if values == [] then [Posting(NativeKey(c, Some(UNTAGGED)), c.cost)]
    else CountPostings(c, values, DistinctOf(values))
  }

  /** The strict zip of tags and per-row costs raises when their lengths differ. */
  predicate ZipRaises(c: Charge) { c.perRowCosts != [] && |c.tags| != |c.perRowCosts| }

  function TagPostingsOf(c: Charge, tagKey: string): seq<Posting>
    requires !ZipRaises(c)
  {
    if c.perRowCosts != [] then RowPostings(c, tagKey, |c.tags|)
    else if c.tags != [] then FallbackPostings(c, tagKey)
    else [Posting(KeyOf(c, Some(UNTAGGED)), c.cost)]
  }

  predicate NoneRaises(charges: seq<Charge>) { forall i :: 0 <= i < |charges| ==> !ZipRaises(charges[i]) }

  function TagPostings(charges: seq<Charge>, tagKey: string): seq<Posting>
    requires NoneRaises(charges)
  {
    if charges == [] then []
    else TagPostings(charges[..|charges| - 1], tagKey) + TagPostingsOf(charges[|charges| - 1], tagKey)
  }

  // ---------------------------------------------------------------- the two aggregations, as they run

  /** A dict of running sums, in insertion order. */
  class Buckets {
    var order: seq<CostKey>
    var sums: map<CostKey, (Cost, nat)>

    /** The buckets hold exactly what `ps` booked. */
    ghost predicate Holds(ps: seq<Posting>)
      reads this
    {
      && order == KeysOf(ps)
      && (forall k :: k in sums <==> k in order)
      && (forall k :: k in sums ==> sums[k] == (AmountAt(ps, k), CountAt(ps, k)))
    }

    constructor ()
      ensures Holds([]) && order == []
    {
      order, sums := [], map[];
    }

    method Post(p: Posting, ghost ps: seq<Posting>)
      requires Holds(ps)
      modifies this
      ensures Holds(ps + [p])
    {
      assert (ps + [p])[..|ps|] == ps;
      UnbookedIsZero(ps, p.key);
      if p.key !in sums {
        order := order + [p.key];
        sums := sums[p.key := (ZERO, 0)];
      }
      var (cost, count) := sums[p.key];
      sums := sums[p.key := (Plus(cost, p.cost), count + 1)];
    }

    method Results(ghost ps: seq<Posting>) returns (r: seq<AggregatedCost>)
      requires Holds(ps)
      ensures r == Aggregates(ps)
    {
      r := [];
      for i := 0 to |order|
        invariant |r| == i && forall j :: 0 <= j < i ==> r[j] == Aggregates(ps)[j]
      {
        assert order[i] in sums;
        var (cost, count) := sums[order[i]];
        r := r + [AggregatedCost(order[i], cost, count)];
      }
    }
  }

  lemma {:induction false} UnbookedIsZero(ps: seq<Posting>, k: CostKey)
    ensures k !in KeysOf(ps) ==> AmountAt(ps, k) == ZERO && CountAt(ps, k) == 0
  {
    if ps != [] {
      UnbookedIsZero(ps[..|ps| - 1], k);
    }
  }

  method AggregateByPeriod(charges: seq<Charge>) returns (results: seq<AggregatedCost>)
    ensures results == Aggregates(PeriodPostings(charges))
  {
    var buckets := new Buckets();
    for i := 0 to |charges|
      invariant fresh(buckets) && buckets.Holds(PeriodPostings(charges[..i]))
    {
      buckets.Post(Posting(KeyOf(charges[i], None), charges[i].cost), PeriodPostings(charges[..i]));
      assert PeriodPostings(charges[..i + 1]) == PeriodPostings(charges[..i]) + [Posting(KeyOf(charges[i], None), charges[i].cost)];
    }
    assert charges[..|charges|] == charges;
    results := buckets.Results(PeriodPostings(charges));
  }

  method PostRows(buckets: Buckets, c: Charge, tagKey: string, ghost ps: seq<Posting>)
    requires buckets.Holds(ps) && |c.tags| == |c.perRowCosts|
    modifies buckets
    ensures buckets.Holds(ps + RowPostings(c, tagKey, |c.tags|))
  {
    assert ps + [] == ps;
    for n := 0 to |c.tags|
      invariant buckets.Holds(ps + RowPostings(c, tagKey, n))
    {
      var p := Posting(KeyOf(c, Some(TagValueOf(c.tags[n], tagKey))), c.perRowCosts[n]);
      buckets.Post(p, ps + RowPostings(c, tagKey, n));
      assert ps + RowPostings(c, tagKey, n) + [p] == ps + RowPostings(c, tagKey, n + 1);
    }
  }

  /** `order` and `counts` are the dict of counts after seeing `values`. */
  ghost predicate Tallied(order: seq<string>, counts: map<string, nat>, values: seq<string>) {
    && order == DistinctOf(values)
    && (forall v :: v in counts <==> v in order)
    && (forall v :: v in counts ==> counts[v] == Occurrences(values, v))
  }

  lemma TallyGrows(order: seq<string>, counts: map<string, nat>, values: seq<string>, v: string)
    requires Tallied(order, counts, values)
    ensures Tallied(if v in counts then order else order + [v], counts[v := (if v in counts then counts[v] else 0) + 1], values + [v])
  {
    var more := values + [v];
    assert more[..|more| - 1] == values;
    AbsentHasNoOccurrence(values, v);
    forall x ensures Occurrences(more, x) == Occurrences(values, x) + if x == v then 1 else 0 {}
  }

  /** How many rows carry each value of the tag, in order of first appearance. */
  method CountValues(tags: seq<Tags>, tagKey: string) returns (order: seq<string>, counts: map<string, nat>)
    ensures Tallied(order, counts, ValuesOf(tags, tagKey))
  {
    order, counts := [], map[];
    for n := 0 to |tags|
      invariant Tallied(order, counts, ValuesOf(tags[..n], tagKey))
    {
      assert tags[..n + 1][..n] == tags[..n];
      ghost var before := ValuesOf(tags[..n], tagKey);
      if tagKey in tags[n] {
        var v := tags[n][tagKey];
        TallyGrows(order, counts, before, v);
        if v !in counts { order := order + [v]; }
        counts := counts[v := (if v in counts then counts[v] else 0) + 1];
      } else {
        assert before + [] == before;
      }
    }
    assert tags[..|tags|] == tags;
  }

  /** The sum of all the counts: the number of rows that carry the tag. */
  method TotalCount(order: seq<string>, counts: map<string, nat>, ghost values: seq<string>) returns (total: nat)
    requires Tallied(order, counts, values)
    ensures total == |values|
  {
    total := 0;
    for k := 0 to |order|
      invariant total == OccurrencesIn(values, order[..k])
    {
      assert order[..k + 1][..k] == order[..k];
      total := total + counts[order[k]];
    }
    assert order[..|order|] == order;
    OccurrencesAddUp(values);
  }

  method PostRowCounts(buckets: Buckets, c: Charge, tagKey: string, ghost ps: seq<Posting>)
    requires buckets.Holds(ps)
    modifies buckets
    ensures buckets.Holds(ps + FallbackPostings(c, tagKey))
  {
    ghost var values := ValuesOf(c.tags, tagKey);
    var order, counts := CountValues(c.tags, tagKey);
    DistinctIsEmpty(values);
    if order == [] {
      buckets.Post(Posting(NativeKey(c, Some(UNTAGGED)), c.cost), ps);
      return;
    }
    var total := TotalCount(order, counts, values);
    assert ps + [] == ps;
    for k := 0 to |order|
      invariant buckets.Holds(ps + CountPostings(c, values, order[..k]))
    {
      assert order[..k + 1][..k] == order[..k];
      var p := Posting(NativeKey(c, Some(order[k])), Scale(c.cost, counts[order[k]] as real / total as real));
      buckets.Post(p, ps + CountPostings(c, values, order[..k]));
      assert ps + CountPostings(c, values, order[..k]) + [p] == ps + CountPostings(c, values, order[..k + 1]);
    }
    assert order[..|order|] == order;
  }

  function OccurrencesIn(values: seq<string>, distinct: seq<string>): nat {
    if distinct == [] then 0
    else OccurrencesIn(values, distinct[..|distinct| - 1]) + Occurrences(values, distinct[|distinct| - 1])
  }

  lemma {:induction false} OneMoreOccurrence(values: seq<string>, v: string, distinct: seq<string>)
    requires forall i, j :: 0 <= i < j < |distinct| ==> distinct[i] != distinct[j]
    ensures OccurrencesIn(values + [v], distinct) == OccurrencesIn(values, distinct) + if v in distinct then 1 else 0
  {
    if distinct != [] {
      var front, d := distinct[..|distinct| - 1], distinct[|distinct| - 1];
      OneMoreOccurrence(values, v, front);
      assert (values + [v])[..|values|] == values;
      assert distinct == front + [d];
      assert d !in front;
    }
  }

  /** The weights of the row-count attribution add up: the counts of the distinct values sum to
      the number of rows. */
  lemma {:induction false} OccurrencesAddUp(values: seq<string>)
    ensures OccurrencesIn(values, DistinctOf(values)) == |values|
  {
    if values != [] {
      var front, v := values[..|values| - 1], values[|values| - 1];
      assert values == front + [v];
      OccurrencesAddUp(front);
      DistinctIsDistinct(front);
      OneMoreOccurrence(front, v, DistinctOf(front));
      if v !in DistinctOf(front) {
        AbsentHasNoOccurrence(front, v);
        assert (DistinctOf(front) + [v])[..|DistinctOf(front)|] == DistinctOf(front);
        assert Occurrences(values, v) == 1;
      }
    }
  }

  method PostCharge(buckets: Buckets, c: Charge, tagKey: string, ghost ps: seq<Posting>)
    requires buckets.Holds(ps) && !ZipRaises(c)
    modifies buckets
    ensures buckets.Holds(ps + TagPostingsOf(c, tagKey))
  {
    if c.perRowCosts != [] {
      PostRows(buckets, c, tagKey, ps);
    } else if c.tags != [] {
      PostRowCounts(buckets, c, tagKey, ps);
    } else {
      buckets.Post(Posting(KeyOf(c, Some(UNTAGGED)), c.cost), ps);
    }
  }

  lemma OneMoreCharge(charges: seq<Charge>, tagKey: string, i: nat)
    requires i < |charges| && NoneRaises(charges[..i]) && !ZipRaises(charges[i])
    ensures NoneRaises(charges[..i + 1])
    ensures TagPostings(charges[..i + 1], tagKey) == TagPostings(charges[..i], tagKey) + TagPostingsOf(charges[i], tagKey)
  {
    assert charges[..i + 1][..i] == charges[..i];
  }

  /** Fails on an empty tag key, and when some charge's tags and per-row costs do not pair up. */
  method AggregateByTag(charges: seq<Charge>, tagKey: string) returns (results: Result<seq<AggregatedCost>, string>)
    ensures results.Ok? <==> tagKey != "" && NoneRaises(charges)
    ensures results.Ok? ==> results.value == Aggregates(TagPostings(charges, tagKey))
  {
    if tagKey == "" {
      return Err("tag_key must be a non-empty string");
    }
    var buckets := new Buckets();
    for i := 0 to |charges|
      invariant fresh(buckets) && NoneRaises(charges[..i]) && buckets.Holds(TagPostings(charges[..i], tagKey))
    {
      if ZipRaises(charges[i]) {
        return Err("zip() arguments differ in length");
      }
      OneMoreCharge(charges, tagKey, i);
      PostCharge(buckets, charges[i], tagKey, TagPostings(charges[..i], tagKey));
    }
    assert charges[..|charges|] == charges;
    var r := buckets.Results(TagPostings(charges, tagKey));
    return Ok(r);
  }
}
