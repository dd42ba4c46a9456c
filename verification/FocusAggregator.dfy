/** From raw charges to one row per (service, period), ready to be stored
    (packages/connectors/focus/src/constat_focus/aggregator.py). */
module FocusAggregator {
  import opened Wrappers
  import opened Focus

  datatype Bucket = Bucket(service: string, periodStart: int, periodEnd: int)

  datatype Aggregated = Aggregated(
    service: string,
    canonical: Option<string>,
    periodStart: int,
    periodEnd: int,
    cost: Cost,
    count: nat,
    tags: seq<Tags>,
    perRowTags: seq<Tags>,
    perRowCosts: seq<Cost>,
    currency: string,
    labels: Labels)

  datatype StorageError = UnpairedRows | MixedCurrencies(bucket: Bucket)

  function BucketOf(c: Charge): Bucket { Bucket(ServiceKey(c), c.periodStart, c.periodEnd) }

  function BucketsOf(cs: seq<Charge>): seq<Bucket> {
    if cs == [] then []
    else
      var front, b := BucketsOf(cs[..|cs| - 1]), BucketOf(cs[|cs| - 1]);
      if b in front then front else front + [b]
  }

  function RowsOf(cs: seq<Charge>, b: Bucket): seq<Charge> {
    if cs == [] then []
    else RowsOf(cs[..|cs| - 1], b) + if BucketOf(cs[|cs| - 1]) == b then [cs[|cs| - 1]] else []
  }

  // ---------------------------------------------------------------- what a bucket becomes

  function Present(values: seq<Option<string>>): seq<string> {
    if values == [] then []
    else
      var v := values[|values| - 1];
      Present(values[..|values| - 1]) + if v.Some? && v.value != "" then [v.value] else []
  }

  /** The value that occurs most often, the earliest such on a tie. */
  function MostCommon(values: seq<string>, distinct: seq<string>): string
    requires distinct != []
  {
    if |distinct| == 1 then distinct[0]
    else
      var best, last := MostCommon(values, distinct[..|distinct| - 1]), distinct[|distinct| - 1];
      if Occurrences(values, last) > Occurrences(values, best) then last else best
  }

  /** The mode of the values that are there and not empty. */
  function Mode(values: seq<Option<string>>): Option<string> {
    var there := Present(values);
    if DistinctOf(there) == [] then None else Some(MostCommon(there, DistinctOf(there)))
  }

  lemma {:induction false} MostCommonIsCommonest(values: seq<string>, distinct: seq<string>, v: string)
    requires v in distinct
    ensures MostCommon(values, distinct) in distinct
    ensures Occurrences(values, v) <= Occurrences(values, MostCommon(values, distinct))
  {
    var front := distinct[..|distinct| - 1];
    assert distinct == front + [distinct[|distinct| - 1]];
    if |distinct| > 1 {
      MostCommonIsCommonest(values, front, if v in front then v else front[0]);
    }
  }

  /** The mode is one of the values, and none occurs more often. */
  lemma ModeIsCommonest(values: seq<Option<string>>, v: string)
    requires Some(v) in values && v != ""
    ensures Mode(values).Some? && Mode(values) in values && Mode(values).value != ""
    ensures Occurrences(Present(values), v) <= Occurrences(Present(values), Mode(values).value)
  {
    var there := Present(values);
    PresentMembers(values, v);
    AbsentHasNoOccurrence(there, v);
    OccursIsMember(there, v);
    MostCommonIsCommonest(there, DistinctOf(there), v);
    var m := Mode(values).value;
    AbsentHasNoOccurrence(there, m);
    OccursIsMember(there, m);
    PresentMembers(values, m);
  }

  lemma {:induction false} PresentMembers(values: seq<Option<string>>, v: string)
    ensures v in Present(values) <==> Some(v) in values && v != ""
  {
    if values != [] {
      PresentMembers(values[..|values| - 1], v);
      assert values == values[..|values| - 1] + [values[|values| - 1]];
    }
  }

  lemma {:induction false} OccursIsMember(values: seq<string>, v: string)
    ensures Occurrences(values, v) > 0 <==> v in values
  {
    if values != [] {
      OccursIsMember(values[..|values| - 1], v);
      assert values == values[..|values| - 1] + [values[|values| - 1]];
    }
  }

  /** The per-row tag dicts of a bucket, in input order, and the costs beside them. */
  function FlatTags(rows: seq<Charge>): seq<Tags> {
    if rows == [] then [] else FlatTags(rows[..|rows| - 1]) + rows[|rows| - 1].tags
  }

  function FlatCosts(rows: seq<Charge>): seq<Cost> {
    if rows == [] then [] else FlatCosts(rows[..|rows| - 1]) + rows[|rows| - 1].perRowCosts
  }

  function TotalCost(rows: seq<Charge>): Cost {
    if rows == [] then ZERO else Plus(TotalCost(rows[..|rows| - 1]), rows[|rows| - 1].cost)
  }

  /** The non-empty tag dicts, each once, in order of first appearance. */
  function UniqueTags(dicts: seq<Tags>): seq<Tags> {
    if dicts == [] then []
    else
      var front, d := UniqueTags(dicts[..|dicts| - 1]), dicts[|dicts| - 1];
      if d == map[] || d in front then front else front + [d]
  }

  function Services(rows: seq<Charge>): seq<Option<string>> {
    if rows == [] then [] else Services(rows[..|rows| - 1]) + [Some(rows[|rows| - 1].service)]
  }

  function Canonicals(rows: seq<Charge>): seq<Option<string>> {
    if rows == [] then [] else Canonicals(rows[..|rows| - 1]) + [rows[|rows| - 1].canonical]
  }

  /** The label columns of the rows. */
  function RegionsOf(rows: seq<Charge>): (r: seq<Option<string>>)
    ensures |r| == |rows| && forall k :: 0 <= k < |rows| ==> r[k] == rows[k].labels.region
  {
    if rows == [] then [] else RegionsOf(rows[..|rows| - 1]) + [rows[|rows| - 1].labels.region]
  }

  function PricingsOf(rows: seq<Charge>): (r: seq<Option<string>>)
    ensures |r| == |rows| && forall k :: 0 <= k < |rows| ==> r[k] == rows[k].labels.pricingCategory
  {
    if rows == [] then [] else PricingsOf(rows[..|rows| - 1]) + [rows[|rows| - 1].labels.pricingCategory]
  }

  function ResourcesOf(rows: seq<Charge>): (r: seq<Option<string>>)
    ensures |r| == |rows| && forall k :: 0 <= k < |rows| ==> r[k] == rows[k].labels.resourceId
  {
    if rows == [] then [] else ResourcesOf(rows[..|rows| - 1]) + [rows[|rows| - 1].labels.resourceId]
  }

  function SubAccountsOf(rows: seq<Charge>): (r: seq<Option<string>>)
    ensures |r| == |rows| && forall k :: 0 <= k < |rows| ==> r[k] == rows[k].labels.subAccountId
  {
    if rows == [] then [] else SubAccountsOf(rows[..|rows| - 1]) + [rows[|rows| - 1].labels.subAccountId]
  }

  /** The mode of each label column. */
  function LabelsOf(rows: seq<Charge>): Labels {
    Labels(Mode(RegionsOf(rows)), Mode(PricingsOf(rows)), Mode(ResourcesOf(rows)), Mode(SubAccountsOf(rows)))
  }

  function AggregateOf(b: Bucket, rows: seq<Charge>): Aggregated {
    var native := Mode(Services(rows));
    Aggregated(
      if native.Some? then native.value else b.service, Mode(Canonicals(rows)),
      b.periodStart, b.periodEnd, TotalCost(rows), |rows|,
      UniqueTags(FlatTags(rows)), FlatTags(rows), FlatCosts(rows), if rows == [] then "USD" else rows[0].currency, LabelsOf(rows))
  }

  // ---------------------------------------------------------------- what is refused

  ghost predicate Paired(cs: seq<Charge>) {
    forall i :: 0 <= i < |cs| ==> |cs[i].tags| == |cs[i].perRowCosts|
  }

  predicate OneCurrency(rows: seq<Charge>) {
    forall i :: 0 <= i < |rows| ==> rows[i].currency == rows[0].currency
  }

  /** No two charges of one bucket carry different currencies. */
  ghost predicate Unmixed(cs: seq<Charge>) {
    forall i, j :: 0 <= i < j < |cs| && BucketOf(cs[i]) == BucketOf(cs[j]) ==> cs[i].currency == cs[j].currency
  }

  // ---------------------------------------------------------------- buckets and their rows

  lemma {:induction false} BucketMembers(cs: seq<Charge>, b: Bucket)
    ensures b in BucketsOf(cs) <==> exists i :: 0 <= i < |cs| && BucketOf(cs[i]) == b
    ensures b in BucketsOf(cs) <==> RowsOf(cs, b) != []
  {
    if cs != [] {
      var front := cs[..|cs| - 1];
      BucketMembers(front, b);
      if exists i :: 0 <= i < |front| && BucketOf(front[i]) == b {
        var i :| 0 <= i < |front| && BucketOf(front[i]) == b;
        assert cs[i] == front[i];
      }
      if exists i :: 0 <= i < |cs| && BucketOf(cs[i]) == b {
        var i :| 0 <= i < |cs| && BucketOf(cs[i]) == b;
        if i < |front| { assert front[i] == cs[i]; }
      }
    }
  }

  lemma {:induction false} BucketsAreDistinct(cs: seq<Charge>)
    ensures forall i, j :: 0 <= i < j < |BucketsOf(cs)| ==> BucketsOf(cs)[i] != BucketsOf(cs)[j]
  {
    if cs != [] {
      BucketsAreDistinct(cs[..|cs| - 1]);
    }
  }

  lemma {:induction false} RowIsACharge(cs: seq<Charge>, b: Bucket, k: nat) returns (i: nat)
    requires k < |RowsOf(cs, b)|
    ensures i < |cs| && cs[i] == RowsOf(cs, b)[k] && BucketOf(cs[i]) == b
  {
    var front := RowsOf(cs[..|cs| - 1], b);
    if k < |front| {
      i := RowIsACharge(cs[..|cs| - 1], b, k);
    } else {
      i := |cs| - 1;
    }
  }

  lemma {:induction false} ChargeIsARow(cs: seq<Charge>, i: nat) returns (k: nat)
    requires i < |cs|
    ensures k < |RowsOf(cs, BucketOf(cs[i]))| && RowsOf(cs, BucketOf(cs[i]))[k] == cs[i]
  {
    var b := BucketOf(cs[i]);
    if i < |cs| - 1 {
      k := ChargeIsARow(cs[..|cs| - 1], i);
      assert RowsOf(cs, b)[k] == RowsOf(cs[..|cs| - 1], b)[k];
    } else {
      k := |RowsOf(cs[..|cs| - 1], b)|;
    }
  }

  lemma MixedBucket(cs: seq<Charge>, b: Bucket)
    requires !OneCurrency(RowsOf(cs, b))
    ensures !Unmixed(cs)
  {
    var k :| 0 <= k < |RowsOf(cs, b)| && RowsOf(cs, b)[k].currency != RowsOf(cs, b)[0].currency;
    var i := RowIsACharge(cs, b, k);
    var j := RowIsACharge(cs, b, 0);
    assert BucketOf(cs[i]) == BucketOf(cs[j]) && cs[i].currency != cs[j].currency;
  }

  lemma UnmixedByBucket(cs: seq<Charge>)
    requires forall j :: 0 <= j < |BucketsOf(cs)| ==> OneCurrency(RowsOf(cs, BucketsOf(cs)[j]))
    ensures Unmixed(cs)
  {
    forall i, j | 0 <= i < j < |cs| && BucketOf(cs[i]) == BucketOf(cs[j]) ensures cs[i].currency == cs[j].currency {
      BucketMembers(cs, BucketOf(cs[i]));
      var k := ChargeIsARow(cs, i);
      var m := ChargeIsARow(cs, j);
      var n :| 0 <= n < |BucketsOf(cs)| && BucketsOf(cs)[n] == BucketOf(cs[i]);
      assert OneCurrency(RowsOf(cs, BucketsOf(cs)[n]));
    }
  }

  // ---------------------------------------------------------------- the aggregation, as it runs

  method GroupByBucket(cs: seq<Charge>) returns (groups: seq<Group>)
    ensures groups == GroupsOf(cs)
  {
    var order: seq<Bucket>, buckets: map<Bucket, seq<Charge>> := [], map[];
    for i := 0 to |cs|
      invariant order == BucketsOf(cs[..i])
      invariant forall b :: b in buckets <==> b in order
      invariant forall b :: b in buckets ==> buckets[b] == RowsOf(cs[..i], b)
    {
      assert cs[..i + 1][..i] == cs[..i];
      var b := BucketOf(cs[i]);
      BucketMembers(cs[..i], b);
      if b !in buckets {
        order := order + [b];
        buckets := buckets[b := []];
      }
      buckets := buckets[b := buckets[b] + [cs[i]]];
    }
    assert cs[..|cs|] == cs;
    groups := seq(|order|, i requires 0 <= i < |order| && order[i] in buckets => Group(order[i], buckets[order[i]]));
  }

  /** Flatten the parallel per-row lists; the strict zip refuses lists of different length. */
  method Flatten(rows: seq<Charge>) returns (paired: bool, tags: seq<Tags>, costs: seq<Cost>)
    ensures paired <==> Paired(rows)
    ensures paired ==> tags == FlatTags(rows) && costs == FlatCosts(rows) && |tags| == |costs|
  {
    tags, costs := [], [];
    for i := 0 to |rows|
      invariant Paired(rows[..i]) && |tags| == |costs|
      invariant tags == FlatTags(rows[..i]) && costs == FlatCosts(rows[..i])
    {
      if |rows[i].tags| != |rows[i].perRowCosts| {
        return false, [], [];
      }
      ghost var t, c := tags, costs;
      for k := 0 to |rows[i].tags|
        invariant |tags| == |costs| && tags == t + rows[i].tags[..k] && costs == c + rows[i].perRowCosts[..k]
      {
        tags := tags + [rows[i].tags[k]];
        costs := costs + [rows[i].perRowCosts[k]];
      }
      assert rows[..i + 1][..i] == rows[..i];
      assert rows[i].tags[..|rows[i].tags|] == rows[i].tags && rows[i].perRowCosts[..|rows[i].perRowCosts|] == rows[i].perRowCosts;
    }
    assert rows[..|rows|] == rows;
    paired := true;
  }

  method UniqueDicts(dicts: seq<Tags>) returns (r: seq<Tags>)
    ensures r == UniqueTags(dicts)
  {
    r := [];
    var seen: set<Tags> := {};
    for i := 0 to |dicts|
      invariant r == UniqueTags(dicts[..i])
      invariant forall d :: d in seen <==> d in r
    {
      assert dicts[..i + 1][..i] == dicts[..i];
      if dicts[i] != map[] && dicts[i] !in seen {
        seen := seen + {dicts[i]};
        r := r + [dicts[i]];
      }
    }
    assert dicts[..|dicts|] == dicts;
  }

  method AggregateBucket(b: Bucket, rows: seq<Charge>) returns (r: Result<Aggregated, StorageError>)
    ensures r.Ok? <==> Fits(rows)
    ensures r.Ok? ==> r.value == AggregateOf(b, rows)
    ensures r.Err? ==> r.error == UnpairedRows || (r.error == MixedCurrencies(b) && !OneCurrency(rows))
  {
    var paired, tags, costs := Flatten(rows);
    if !paired {
      return Err(UnpairedRows);
    }
    if !OneCurrency(rows) {
      return Err(MixedCurrencies(b));
    }
    var native, canonical := Mode(Services(rows)), Mode(Canonicals(rows));
    var total := AddUp(rows);
    var unique := UniqueDicts(tags);
    return Ok(Aggregated(
      if native.Some? then native.value else b.service, canonical, b.periodStart, b.periodEnd, total, |rows|,
      unique, tags, costs, if rows == [] then "USD" else rows[0].currency, LabelsOf(rows)));
  }

  method AddUp(rows: seq<Charge>) returns (total: Cost)
    ensures total == TotalCost(rows)
  {
    total := ZERO;
    for i := 0 to |rows|
      invariant total == TotalCost(rows[..i])
    {
      assert rows[..i + 1][..i] == rows[..i];
      total := Plus(total, rows[i].cost);
    }
    assert rows[..|rows|] == rows;
  }

  /** The buckets with their rows, as the dict iterates over them. */
  datatype Group = Group(bucket: Bucket, rows: seq<Charge>)

  function GroupsOf(cs: seq<Charge>): (r: seq<Group>)
    ensures |r| == |BucketsOf(cs)|
  {
    seq(|BucketsOf(cs)|, i requires 0 <= i < |BucketsOf(cs)| => Group(BucketsOf(cs)[i], RowsOf(cs, BucketsOf(cs)[i])))
  }

  function AggregatesOf(groups: seq<Group>): (r: seq<Aggregated>)
    ensures |r| == |groups|
  {
    seq(|groups|, i requires 0 <= i < |groups| => AggregateOf(groups[i].bucket, groups[i].rows))
  }

  predicate Fits(rows: seq<Charge>) {
    OneCurrency(rows) && forall i :: 0 <= i < |rows| ==> |rows[i].tags| == |rows[i].perRowCosts|
  }

  /** The input is storable exactly when each of its groups is. */
  lemma FitsByBucket(cs: seq<Charge>)
    ensures Paired(cs) && Unmixed(cs) <==> forall i :: 0 <= i < |GroupsOf(cs)| ==> Fits(GroupsOf(cs)[i].rows)
  {
    if forall i :: 0 <= i < |GroupsOf(cs)| ==> Fits(GroupsOf(cs)[i].rows) {
      forall j | 0 <= j < |BucketsOf(cs)|
        ensures Paired(RowsOf(cs, BucketsOf(cs)[j])) && OneCurrency(RowsOf(cs, BucketsOf(cs)[j]))
      {
        assert Fits(GroupsOf(cs)[j].rows);
      }
      PairedByBucket(cs);
      UnmixedByBucket(cs);
    } else {
      var i :| 0 <= i < |GroupsOf(cs)| && !Fits(GroupsOf(cs)[i].rows);
      var b := BucketsOf(cs)[i];
      if !OneCurrency(RowsOf(cs, b)) { MixedBucket(cs, b); } else { UnpairedBucket(cs, b); }
    }
  }

  /** One aggregate per group, or the first error. */
  method AggregateGroups(groups: seq<Group>) returns (r: Result<seq<Aggregated>, StorageError>)
    ensures r.Ok? <==> forall i :: 0 <= i < |groups| ==> Fits(groups[i].rows)
    ensures r.Ok? ==> r.value == AggregatesOf(groups)
    ensures r.Err? && r.error.MixedCurrencies? ==> exists i :: 0 <= i < |groups| && Group(r.error.bucket, groups[i].rows) == groups[i] && !OneCurrency(groups[i].rows)
  {
    var results: seq<Aggregated> := [];
    for i := 0 to |groups|
      invariant |results| == i
      invariant forall j :: 0 <= j < i ==> Fits(groups[j].rows) && results[j] == AggregatesOf(groups)[j]
    {
      var one := AggregateBucket(groups[i].bucket, groups[i].rows);
      if one.Err? {
        assert !Fits(groups[i].rows);
        return Err(one.error);
      }
      results := results + [one.value];
    }
    assert results == AggregatesOf(groups);
    return Ok(results);
  }

  /** Refuses exactly the inputs with an unpaired row or a bucket that mixes currencies, and
      otherwise returns one aggregate per bucket, in order of first appearance. */
  method AggregateForStorage(cs: seq<Charge>) returns (r: Result<seq<Aggregated>, StorageError>)
    ensures r.Ok? <==> Paired(cs) && Unmixed(cs)
    ensures r.Ok? ==> r.value == AggregatesOf(GroupsOf(cs))
    ensures r.Err? && r.error.MixedCurrencies? ==> !OneCurrency(RowsOf(cs, r.error.bucket))
  {
    var groups := GroupByBucket(cs);
    r := AggregateGroups(groups);
    FitsByBucket(cs);
  }

  lemma UnpairedBucket(cs: seq<Charge>, b: Bucket)
    requires !Paired(RowsOf(cs, b))
    ensures !Paired(cs)
  {
    var k :| 0 <= k < |RowsOf(cs, b)| && |RowsOf(cs, b)[k].tags| != |RowsOf(cs, b)[k].perRowCosts|;
    var i := RowIsACharge(cs, b, k);
  }

  lemma PairedByBucket(cs: seq<Charge>)
    requires forall j :: 0 <= j < |BucketsOf(cs)| ==> Paired(RowsOf(cs, BucketsOf(cs)[j]))
    ensures Paired(cs)
  {
    forall i | 0 <= i < |cs| ensures |cs[i].tags| == |cs[i].perRowCosts| {
      BucketMembers(cs, BucketOf(cs[i]));
      var k := ChargeIsARow(cs, i);
    }
  }

  // ---------------------------------------------------------------- what the aggregates keep

  /** `COALESCE(service_canonical, service)`: the service part of the storage key. */
  function Coalesced(canonical: Option<string>, service: string): string {
    if canonical.Some? then canonical.value else service
  }

  lemma {:induction false} ColumnsHold(rows: seq<Charge>, i: nat)
    requires i < |rows|
    ensures Some(rows[i].service) in Services(rows) && rows[i].canonical in Canonicals(rows)
  {
    if i < |rows| - 1 {
      assert rows[..|rows| - 1][i] == rows[i];
      ColumnsHold(rows[..|rows| - 1], i);
    }
  }

  lemma {:induction false} ColumnsOnlyHold(rows: seq<Charge>, v: Option<string>)
    ensures v in Services(rows) ==> exists i :: 0 <= i < |rows| && v == Some(rows[i].service)
    ensures v in Canonicals(rows) ==> exists i :: 0 <= i < |rows| && v == rows[i].canonical
  {
    if rows != [] {
      var front := rows[..|rows| - 1];
      ColumnsOnlyHold(front, v);
      if v in Services(front) {
        var i :| 0 <= i < |front| && v == Some(front[i].service);
        assert rows[i] == front[i];
      }
      if v in Canonicals(front) {
        var i :| 0 <= i < |front| && v == front[i].canonical;
        assert rows[i] == front[i];
      }
    }
  }

  lemma ModeOfColumn(values: seq<Option<string>>, only: string)
    requires forall v :: v in values ==> v == None || v == Some("") || v == Some(only)
    ensures Mode(values) == if only != "" && Some(only) in values then Some(only) else None
  {
    if only != "" && Some(only) in values {
      ModeIsCommonest(values, only);
    } else {
      NothingPresent(values);
    }
  }

  lemma NothingPresent(values: seq<Option<string>>)
    requires forall v :: v in values ==> v == None || v == Some("")
    ensures Present(values) == []
  {
    if Present(values) != [] {
      PresentMembers(values, Present(values)[0]);
    }
  }

  /** The storage key of an aggregate is the key its bucket was built on, whatever mixture of
      native and canonical names its rows carry. */
  lemma AggregateKeepsItsKey(b: Bucket, rows: seq<Charge>)
    requires rows != [] && forall i :: 0 <= i < |rows| ==> BucketOf(rows[i]) == b
    ensures var a := AggregateOf(b, rows);
      Coalesced(a.canonical, a.service) == b.service && a.periodStart == b.periodStart && a.periodEnd == b.periodEnd
    ensures AggregateOf(b, rows).canonical != Some("")
  {
    forall v | v in Canonicals(rows) ensures v == None || v == Some("") || v == Some(b.service) {
      ColumnsOnlyHold(rows, v);
    }
    ModeOfColumn(Canonicals(rows), b.service);
    if Mode(Canonicals(rows)).None? {
      forall v | v in Services(rows) ensures v == Some(b.service) {
        ColumnsOnlyHold(rows, v);
        var i :| 0 <= i < |rows| && v == Some(rows[i].service);
        ColumnsHold(rows, i);
        assert BucketOf(rows[i]) == b;
      }
      ModeOfColumn(Services(rows), b.service);
    }
  }

  lemma GroupRows(cs: seq<Charge>, i: nat)
    requires i < |GroupsOf(cs)|
    ensures var g := GroupsOf(cs)[i];
      g.rows == RowsOf(cs, g.bucket) && g.rows != [] && forall k :: 0 <= k < |g.rows| ==> BucketOf(g.rows[k]) == g.bucket
  {
    var g := GroupsOf(cs)[i];
    assert g.bucket in BucketsOf(cs);
    BucketMembers(cs, g.bucket);
    forall k | 0 <= k < |g.rows| ensures BucketOf(g.rows[k]) == g.bucket {
      var m := RowIsACharge(cs, g.bucket, k);
    }
  }

  function BucketOfAggregate(a: Aggregated): Bucket {
    Bucket(Coalesced(a.canonical, a.service), a.periodStart, a.periodEnd)
  }

  /** Two different aggregates of one ingest never share a storage key. */
  lemma AggregatesHaveDistinctKeys(cs: seq<Charge>, i: nat, j: nat)
    requires i < j < |AggregatesOf(GroupsOf(cs))|
    ensures BucketOfAggregate(AggregatesOf(GroupsOf(cs))[i]) != BucketOfAggregate(AggregatesOf(GroupsOf(cs))[j])
  {
    GroupRows(cs, i);
    GroupRows(cs, j);
    AggregateKeepsItsKey(GroupsOf(cs)[i].bucket, GroupsOf(cs)[i].rows);
    AggregateKeepsItsKey(GroupsOf(cs)[j].bucket, GroupsOf(cs)[j].rows);
    BucketsAreDistinct(cs);
  }
}
