/** The whole cost pipeline at once: a file is aggregated, stored, read back and grouped by tag,
    and what the report attributes is stated over the raw charges. Sources:
    packages/connectors/focus/src/constat_focus/aggregator.py,
    apps/api/src/constat_api/repositories/focus_charges.py, insights/runner.py and
    packages/insights/chargeback/src/constat_chargeback/resolver.py. */
module FocusPipeline {
  import opened Wrappers
  import opened Focus
  import opened FocusAggregator
  import opened FocusStorage
  import opened FocusStorageLaws
  import opened FocusReadback
  import opened Chargeback
  import opened ChargebackLaws
  import opened TagShares

  /** Charges as the loader builds them: parallel lists whose costs add up to the charge. */
  ghost predicate FromLoader(cs: seq<Charge>) {
    forall i :: 0 <= i < |cs| ==> |cs[i].tags| == |cs[i].perRowCosts| && Sum(cs[i].perRowCosts) == cs[i].cost
  }

  /** The stored rows as the report reads them, the tag rows of each fetched in any order. */
  ghost predicate ReadFrom(read: seq<Charge>, t: Store) {
    && IsReadBack(read, t.charges)
    && forall k :: 0 <= k < |read| ==>
         TagsLoaded(t.tagRows, k, read[k].tags) && CostsLoaded(t.tagRows, k, read[k].perRowCosts)
  }

  // ---------------------------------------------------------------- reading and grouping, as they run

  /** The ids of the first `n` rows. */
  function IdsBelow(n: nat): (ids: set<nat>)
    ensures forall k: nat :: k in ids <==> k < n
  {
    if n == 0 then {} else IdsBelow(n - 1) + {n - 1}
  }

  method ReadAll(t: Store) returns (read: seq<Charge>)
    ensures ReadFrom(read, t)
  {
    var ids := IdsBelow(|t.charges|);
    var dicts := LoadPerRowTags(t.tagRows, ids);
    var costs := LoadPerRowCosts(t.tagRows, ids);
    read := [];
    for k := 0 to |t.charges|
      invariant |read| == k
      invariant forall i :: 0 <= i < k ==> read[i] == ReadBack(t.charges[i], read[i].tags, read[i].perRowCosts)
      invariant forall i :: 0 <= i < k ==>
        TagsLoaded(t.tagRows, i, read[i].tags) && CostsLoaded(t.tagRows, i, read[i].perRowCosts)
    {
      read := read + [ReadBack(t.charges[k], dicts[k], costs[k])];
    }
  }

  lemma ReadingNeverRaises(t: Store, read: seq<Charge>)
    requires ReadFrom(read, t)
    ensures NoneRaises(read)
  {
    forall k | 0 <= k < |read| ensures !ZipRaises(read[k]) {
      LoadersAgreeOnLength(t.tagRows, k, read[k].tags, read[k].perRowCosts);
    }
  }

  /** The report over one account's rows: by tag when a key is given, else by period. It does not
      fail, whatever the tag table holds. */
  method AccountReport(t: Store, tagKey: string) returns (read: seq<Charge>, report: seq<AggregatedCost>)
    ensures ReadFrom(read, t) && NoneRaises(read)
    ensures report == Aggregates(if tagKey != "" then TagPostings(read, tagKey) else PeriodPostings(read))
  {
    read := ReadAll(t);
    ReadingNeverRaises(t, read);
    if tagKey != "" {
      var grouped := AggregateByTag(read, tagKey);
      report := grouped.value;
    } else {
      report := AggregateByPeriod(read);
    }
  }

  // ---------------------------------------------------------------- the stored file

  lemma {:induction false} FlatTotals(rows: seq<Charge>)
    requires FromLoader(rows)
    ensures |FlatTags(rows)| == |FlatCosts(rows)| && Sum(FlatCosts(rows)) == TotalCost(rows)
  {
    if rows != [] {
      var front, last := rows[..|rows| - 1], rows[|rows| - 1];
      FlatTotals(front);
      SumConcat(FlatCosts(front), last.perRowCosts);
    }
  }

  lemma GroupFromLoader(cs: seq<Charge>, i: nat)
    requires FromLoader(cs) && i < |GroupsOf(cs)|
    ensures FromLoader(GroupsOf(cs)[i].rows)
  {
    var g := GroupsOf(cs)[i];
    GroupRows(cs, i);
    forall k | 0 <= k < |g.rows|
      ensures |g.rows[k].tags| == |g.rows[k].perRowCosts| && Sum(g.rows[k].perRowCosts) == g.rows[k].cost
    {
      var j := RowIsACharge(cs, g.bucket, k);
    }
  }

  /** After an ingest into an empty table, row `k` has exactly the tag rows of aggregate `k`. */
  lemma {:induction false} FreshTagRows(account: string, aggs: seq<Aggregated>, k: nat)
    requires DistinctKeys(account, aggs)
    ensures var t := UpsertAll(FocusStorage.EMPTY, account, aggs);
      OfCharge(t.tagRows, k) == if k < |aggs| then RowsFor(k, aggs[k].perRowTags, aggs[k].perRowCosts) else {}
  {
    if aggs != [] {
      var front, last := aggs[..|aggs| - 1], aggs[|aggs| - 1];
      var t := UpsertAll(FocusStorage.EMPTY, account, front);
      FreshTagRows(account, front, k);
      FreshIngest(account, front);
      forall m | 0 <= m < |t.charges| ensures KeyOfRow(t.charges[m]) != KeyOfAggregate(account, last) {
        assert KeyOfRow(t.charges[m]) == KeyOfAggregate(account, aggs[m]);
      }
      if k != |front| {
        WrittenElsewhere(t.tagRows, |front|, last.perRowTags, last.perRowCosts, k);
      } else if last.perRowTags != [] {
        WrittenHere(t.tagRows, |front|, last.perRowTags, last.perRowCosts);
      }
    }
  }

  // ---------------------------------------------------------------- the tag view of distinct rows

  /** Rows the fallback never sees, each in its own bucket. */
  ghost predicate Separate(read: seq<Charge>) {
    && NoneRaises(read)
    && (forall k :: 0 <= k < |read| && read[k].perRowCosts == [] ==> read[k].tags == [])
    && (forall j, k :: 0 <= j < k < |read| ==> KeyOf(read[j], None) != KeyOf(read[k], None))
  }

  lemma OtherBucket(c: Charge, tagKey: string, period: CostKey)
    requires !ZipRaises(c) && (c.perRowCosts == [] ==> c.tags == []) && KeyOf(c, None) != period
    ensures AmountIn(TagPostingsOf(c, tagKey), period) == ZERO
  {
    if c.perRowCosts != [] {
      RowsAmount(c, tagKey, |c.tags|, period);
    } else {
      OnePosting(Posting(KeyOf(c, Some(UNTAGGED)), c.cost), period);
    }
  }

  /** What the charge books under one bucket, over all tag values. */
  function ShareOf(c: Charge, tagKey: string, period: CostKey): Cost
    requires !ZipRaises(c)
  {
    AmountIn(TagPostingsOf(c, tagKey), period)
  }

  function Shares(read: seq<Charge>, tagKey: string, period: CostKey): Cost
    requires NoneRaises(read)
  {
    if read == [] then ZERO
    else Plus(Shares(read[..|read| - 1], tagKey, period), ShareOf(read[|read| - 1], tagKey, period))
  }

  lemma {:induction false} SharesAddUp(read: seq<Charge>, tagKey: string, period: CostKey)
    requires NoneRaises(read)
    ensures AmountIn(TagPostings(read, tagKey), period) == Shares(read, tagKey, period)
  {
    if read != [] {
      SharesAddUp(read[..|read| - 1], tagKey, period);
      AmountConcat(TagPostings(read[..|read| - 1], tagKey), TagPostingsOf(read[|read| - 1], tagKey), period);
    }
  }

  /** With at most one charge that books under the bucket, the shares are that charge's share. */
  lemma {:induction false} OneShare(read: seq<Charge>, tagKey: string, period: CostKey, i: nat, own: Cost)
    requires NoneRaises(read)
    requires forall k :: 0 <= k < |read| ==> ShareOf(read[k], tagKey, period) == if k == i then own else ZERO
    ensures Shares(read, tagKey, period) == if i < |read| then own else ZERO
  {
    if read != [] {
      OneShare(read[..|read| - 1], tagKey, period, i, own);
    }
  }

  lemma OnlyOwnRow(read: seq<Charge>, tagKey: string, i: nat)
    requires Separate(read) && i < |read|
    ensures AmountIn(TagPostings(read, tagKey), KeyOf(read[i], None)) == ShareOf(read[i], tagKey, KeyOf(read[i], None))
  {
    var period := KeyOf(read[i], None);
    var own := ShareOf(read[i], tagKey, period);
    forall k | 0 <= k < |read| ensures ShareOf(read[k], tagKey, period) == if k == i then own else ZERO {
      if k != i { OtherBucket(read[k], tagKey, period); }
    }
    SharesAddUp(read, tagKey, period);
    OneShare(read, tagKey, period, i, own);
  }

  // ---------------------------------------------------------------- file to report

  /** Row `i` of the stored file as it is read back. */
  lemma StoredRow(account: string, cs: seq<Charge>, read: seq<Charge>, i: nat)
    requires FromLoader(cs) && i < |GroupsOf(cs)|
    requires ReadFrom(read, UpsertAll(FocusStorage.EMPTY, account, AggregatesOf(GroupsOf(cs))))
    ensures |read| == |GroupsOf(cs)| && KeyOf(read[i], None) == ReportOf(account, cs, i).key
    ensures var a := AggregatesOf(GroupsOf(cs))[i];
      read[i] == ReadBack(Inserted(account, a), Trim(a.perRowTags), Zeroed(a.perRowTags, a.perRowCosts))
  {
    var aggs := AggregatesOf(GroupsOf(cs));
    var t := UpsertAll(FocusStorage.EMPTY, account, aggs);
    AggregatorOutputIsDistinct(account, cs);
    FreshIngest(account, aggs);
    FreshTagRows(account, aggs, i);
    RoundTrip(t.tagRows, i, aggs[i].perRowTags, aggs[i].perRowCosts, read[i].tags, read[i].perRowCosts);
    StoredKey(account, cs, i, read[i]);
  }

  lemma ReadIsSeparate(account: string, cs: seq<Charge>, read: seq<Charge>)
    requires FromLoader(cs)
    requires ReadFrom(read, UpsertAll(FocusStorage.EMPTY, account, AggregatesOf(GroupsOf(cs))))
    ensures |read| == |GroupsOf(cs)| && Separate(read)
  {
    var t := UpsertAll(FocusStorage.EMPTY, account, AggregatesOf(GroupsOf(cs)));
    AggregatorOutputIsDistinct(account, cs);
    FreshIngest(account, AggregatesOf(GroupsOf(cs)));
    forall k | 0 <= k < |read|
      ensures !ZipRaises(read[k]) && (read[k].perRowCosts == [] ==> read[k].tags == [])
      ensures KeyOf(read[k], None).service == BucketsOf(cs)[k].service
      ensures KeyOf(read[k], None).periodStart == BucketsOf(cs)[k].periodStart
      ensures KeyOf(read[k], None).periodEnd == BucketsOf(cs)[k].periodEnd
    {
      LoadersAgreeOnLength(t.tagRows, k, read[k].tags, read[k].perRowCosts);
      StoredRow(account, cs, read, k);
    }
    BucketsAreDistinct(cs);
    forall j, k | 0 <= j < k < |read| ensures KeyOf(read[j], None) != KeyOf(read[k], None) {
      assert BucketsOf(cs)[j] != BucketsOf(cs)[k];
    }
  }

  /** The tag view of one bucket is the tag view of its own stored row. */
  lemma TagViewOfBucket(account: string, cs: seq<Charge>, read: seq<Charge>, tagKey: string, i: nat)
    requires FromLoader(cs) && i < |GroupsOf(cs)|
    requires ReadFrom(read, UpsertAll(FocusStorage.EMPTY, account, AggregatesOf(GroupsOf(cs))))
    ensures i < |read| && NoneRaises(read)
    ensures TotalIn(Aggregates(TagPostings(read, tagKey)), ReportOf(account, cs, i).key)
      == AmountIn(TagPostingsOf(read[i], tagKey), KeyOf(read[i], None))
  {
    ReadIsSeparate(account, cs, read);
    StoredRow(account, cs, read, i);
    OnlyOwnRow(read, tagKey, i);
    GroupingConserves(TagPostings(read, tagKey), ReportOf(account, cs, i).key);
  }

  /** What a bucket's input rows carry: their tags, their costs and the cost they add up to. */
  ghost predicate InputRows(cs: seq<Charge>, i: nat, dicts: seq<Tags>, costs: seq<Cost>, total: Cost)
    requires i < |GroupsOf(cs)|
  {
    var rows := GroupsOf(cs)[i].rows;
    dicts == FlatTags(rows) && costs == FlatCosts(rows) && total == TotalCost(rows)
  }

  lemma RowOfBucket(account: string, cs: seq<Charge>, read: seq<Charge>, tagKey: string, i: nat,
                    dicts: seq<Tags>, costs: seq<Cost>, total: Cost)
    requires FromLoader(cs) && i < |GroupsOf(cs)| && InputRows(cs, i, dicts, costs, total)
    requires ReadFrom(read, UpsertAll(FocusStorage.EMPTY, account, AggregatesOf(GroupsOf(cs))))
    ensures |dicts| == |costs| && total == Sum(costs) && i < |read| && !ZipRaises(read[i])
    ensures ReportOf(account, cs, i).cost == total
    ensures AmountIn(TagPostingsOf(read[i], tagKey), KeyOf(read[i], None))
      == if NoneTagged(dicts) then total else TaggedCost(dicts, costs)
  {
    GroupFromLoader(cs, i);
    FlatTotals(GroupsOf(cs)[i].rows);
    StoredRow(account, cs, read, i);
    StoredAttribution(Inserted(account, AggregatesOf(GroupsOf(cs))[i]), dicts, costs, tagKey);
  }

  lemma WholeCostExactlyWhen(dicts: seq<Tags>, costs: seq<Cost>)
    requires |dicts| == |costs|
    ensures TaggedCost(dicts, costs) == Sum(costs) <==> UntaggedCost(dicts, costs) == ZERO
  {
    TaggedPlusUntagged(dicts, costs);
  }

  /** From file to tag report, for any file, any tag key and any fetch order: grouping never
      fails; the tag values of bucket `i` together get the cost of the bucket's tagged input rows,
      or the whole cost when none is tagged; and that is the cost the period report shows exactly
      when no row is tagged or the untagged rows cost nothing. */
  lemma FileToTagReport(account: string, cs: seq<Charge>, read: seq<Charge>, tagKey: string, i: nat,
                        dicts: seq<Tags>, costs: seq<Cost>, total: Cost)
    requires FromLoader(cs) && i < |GroupsOf(cs)| && InputRows(cs, i, dicts, costs, total)
    requires ReadFrom(read, UpsertAll(FocusStorage.EMPTY, account, AggregatesOf(GroupsOf(cs))))
    ensures NoneRaises(read) && |dicts| == |costs|
    ensures ReportOf(account, cs, i).cost == total
    ensures var shown := TotalIn(Aggregates(TagPostings(read, tagKey)), ReportOf(account, cs, i).key);
      && shown == (if NoneTagged(dicts) then total else TaggedCost(dicts, costs))
      && (shown == total <==> NoneTagged(dicts) || UntaggedCost(dicts, costs) == ZERO)
  {
    TagViewOfBucket(account, cs, read, tagKey, i);
    RowOfBucket(account, cs, read, tagKey, i, dicts, costs, total);
    WholeCostExactlyWhen(dicts, costs);
  }

  // ---------------------------------------------------------------- file to report, value by value

  /** The cost of those of the first `n` input rows that are tagged and count for the value. */
  function TaggedBearing(dicts: seq<Tags>, costs: seq<Cost>, tagKey: string, v: string, n: nat): Cost
    requires n <= |dicts| && n <= |costs|
  {
    if n == 0 then ZERO
    else
      Plus(TaggedBearing(dicts, costs, tagKey, v, n - 1),
           if dicts[n - 1] != map[] && Bears(dicts[n - 1], tagKey, v) then costs[n - 1] else ZERO)
  }

  /** For a value proper that is every row with the value. */
  lemma {:induction false} ValuedRowsAreTagged(dicts: seq<Tags>, costs: seq<Cost>, tagKey: string, v: string, n: nat)
    requires n <= |dicts| && n <= |costs| && v != "__untagged__"
    ensures TaggedBearing(dicts, costs, tagKey, v, n) == RowsBearing(dicts, costs, tagKey, v, n).cost
  {
    if n > 0 {
      ValuedRowsAreTagged(dicts, costs, tagKey, v, n - 1);
    }
  }

  /** Reading back the trimmed dicts with the untagged rows' costs zeroed leaves exactly the tagged
      rows. */
  lemma {:induction false} ZeroedBearing(dicts: seq<Tags>, costs: seq<Cost>, front: seq<Tags>, zeroed: seq<Cost>,
                                         tagKey: string, v: string, n: nat)
    requires n <= |front| <= |dicts| && |front| == |zeroed| && |dicts| == |costs|
    requires forall i :: 0 <= i < |front| ==> front[i] == dicts[i]
    requires forall i :: 0 <= i < |front| ==> zeroed[i] == if dicts[i] == map[] then ZERO else costs[i]
    ensures RowsBearing(front, zeroed, tagKey, v, n).cost == TaggedBearing(dicts, costs, tagKey, v, n)
  {
    if n > 0 {
      ZeroedBearing(dicts, costs, front, zeroed, tagKey, v, n - 1);
    }
  }

  lemma {:induction false} UntaggedTail(dicts: seq<Tags>, costs: seq<Cost>, n: nat, m: nat, tagKey: string, v: string)
    requires |dicts| == |costs| && n <= m <= |dicts| && forall i :: n <= i < |dicts| ==> dicts[i] == map[]
    ensures TaggedBearing(dicts, costs, tagKey, v, m) == TaggedBearing(dicts, costs, tagKey, v, n)
  {
    if n < m {
      UntaggedTail(dicts, costs, n, m - 1, tagKey, v);
    }
  }

  /** What is read back bears for each value the cost of the tagged rows that do. */
  lemma ReadBackBears(dicts: seq<Tags>, costs: seq<Cost>, tagKey: string, v: string)
    requires |dicts| == |costs|
    ensures RowsBearing(Trim(dicts), Zeroed(dicts, costs), tagKey, v, |Trim(dicts)|).cost
      == TaggedBearing(dicts, costs, tagKey, v, |dicts|)
  {
    var n := |Trim(dicts)|;
    TrimIsPrefix(dicts);
    ZeroedBearing(dicts, costs, Trim(dicts), Zeroed(dicts, costs), tagKey, v, n);
    UntaggedTail(dicts, costs, n, |dicts|, tagKey, v);
  }

  lemma {:induction false} OneContributes(read: seq<Charge>, tagKey: string, v: string, period: CostKey, i: nat, own: Booked)
    requires NoneRaises(read)
    requires forall k :: 0 <= k < |read| ==> Share(read[k], tagKey, v, period) == if k == i then own else NOTHING
    ensures DirectShare(read, tagKey, v, period) == if i < |read| then own else NOTHING
  {
    if read != [] {
      OneContributes(read[..|read| - 1], tagKey, v, period, i, own);
    }
  }

  /** In a report of rows with buckets of their own, a bucket shows for each value the share of its
      own row. */
  lemma OwnShare(read: seq<Charge>, tagKey: string, v: string, i: nat, c: Charge, own: Booked)
    requires Separate(read) && i < |read| && read[i] == c && !ZipRaises(c) && own == Share(c, tagKey, v, KeyOf(c, None))
    ensures Shows(Aggregates(TagPostings(read, tagKey)), KeyOf(c, None).(tagValue := Some(v)), own)
  {
    var period := KeyOf(c, None);
    forall k | 0 <= k < |read| ensures Share(read[k], tagKey, v, period) == if k == i then own else NOTHING {
      KeyIsItsBucket(read[k], period);
    }
    OneContributes(read, tagKey, v, period, i, own);
    TagReportIsExact(read, tagKey, v, period);
  }

  /** The share of a stored row, from its input rows. */
  lemma StoredShare(c: Charge, dicts: seq<Tags>, costs: seq<Cost>, tagKey: string, v: string)
    requires |dicts| == |costs| && c.tags == Trim(dicts) && c.perRowCosts == Zeroed(dicts, costs)
    ensures !ZipRaises(c)
    ensures Share(c, tagKey, v, KeyOf(c, None)).cost
      == if !NoneTagged(dicts) then TaggedBearing(dicts, costs, tagKey, v, |dicts|) else if v == "__untagged__" then c.cost else ZERO
  {
    KeyIsItsBucket(c, KeyOf(c, None));
    TrimIsEmpty(dicts);
    ReadBackBears(dicts, costs, tagKey, v);
  }

  /** From file to tag report, value by value, for any file, tag key and fetch order: in every
      bucket each value gets the cost of the tagged input rows that carry it, the untagged value
      that of the tagged rows that do not carry the key, or all of it when no row is tagged. */
  lemma FileToTagValue(account: string, cs: seq<Charge>, read: seq<Charge>, tagKey: string, v: string, i: nat,
                       dicts: seq<Tags>, costs: seq<Cost>, total: Cost) returns (shown: Booked)
    requires FromLoader(cs) && i < |GroupsOf(cs)| && InputRows(cs, i, dicts, costs, total)
    requires ReadFrom(read, UpsertAll(FocusStorage.EMPTY, account, AggregatesOf(GroupsOf(cs))))
    ensures NoneRaises(read) && |dicts| == |costs|
    ensures Shows(Aggregates(TagPostings(read, tagKey)), ReportOf(account, cs, i).key.(tagValue := Some(v)), shown)
    ensures shown.cost
      == if !NoneTagged(dicts) then TaggedBearing(dicts, costs, tagKey, v, |dicts|) else if v == "__untagged__" then total else ZERO
  {
    RowOfBucket(account, cs, read, tagKey, i, dicts, costs, total);
    ReadIsSeparate(account, cs, read);
    StoredRow(account, cs, read, i);
    StoredShare(read[i], dicts, costs, tagKey, v);
    shown := Share(read[i], tagKey, v, KeyOf(read[i], None));
    OwnShare(read, tagKey, v, i, read[i], shown);
  }
}
