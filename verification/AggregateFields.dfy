/** What each stored aggregate says about the charges of its bucket, said from the charges alone
    (packages/connectors/focus/src/constat_focus/aggregator.py). */
module AggregateFields {
  import opened Wrappers
  import opened Focus
  import opened FocusAggregator

  // ---------------------------------------------------------------- which charges share a bucket

  /** The charge belongs to the bucket, field by field. */
  predicate Belongs(c: Charge, b: Bucket) {
    && (if c.canonical.Some? && c.canonical.value != "" then c.canonical.value else c.service) == b.service
    && c.periodStart == b.periodStart && c.periodEnd == b.periodEnd
  }

  /** The charges of the bucket, in input order, their cost and their number. */
  function ChargesOf(cs: seq<Charge>, b: Bucket): seq<Charge> {
    if cs == [] then []
    else ChargesOf(cs[..|cs| - 1], b) + if Belongs(cs[|cs| - 1], b) then [cs[|cs| - 1]] else []
  }

  function CostOf(cs: seq<Charge>, b: Bucket): Cost {
    if cs == [] then Cost(0.0, 0.0)
    else
      var front, c := CostOf(cs[..|cs| - 1], b), cs[|cs| - 1];
      if Belongs(c, b) then Cost(front.billed + c.cost.billed, front.amortized + c.cost.amortized) else front
  }

  function NumberOf(cs: seq<Charge>, b: Bucket): nat {
    if cs == [] then 0 else NumberOf(cs[..|cs| - 1], b) + Bit(Belongs(cs[|cs| - 1], b))
  }

  lemma {:induction false} RowsAreCharges(cs: seq<Charge>, b: Bucket)
    ensures RowsOf(cs, b) == ChargesOf(cs, b)
    ensures TotalCost(RowsOf(cs, b)) == CostOf(cs, b) && |RowsOf(cs, b)| == NumberOf(cs, b)
  {
    if cs != [] {
      var front, c := cs[..|cs| - 1], cs[|cs| - 1];
      RowsAreCharges(front, b);
      if BucketOf(c) == b {
        assert (RowsOf(front, b) + [c])[..|RowsOf(front, b)|] == RowsOf(front, b);
      } else {
        assert RowsOf(cs, b) == RowsOf(front, b);
      }
    }
  }

  /** Every group is exactly the charges of its bucket, no two groups share a bucket, and every
      charge is in one. */
  lemma GroupsAreExact(cs: seq<Charge>, i: nat)
    requires i < |GroupsOf(cs)|
    ensures GroupsOf(cs)[i].rows == ChargesOf(cs, GroupsOf(cs)[i].bucket) != []
    ensures forall j :: 0 <= j < |GroupsOf(cs)| && j != i ==> GroupsOf(cs)[j].bucket != GroupsOf(cs)[i].bucket
  {
    RowsAreCharges(cs, GroupsOf(cs)[i].bucket);
    GroupRows(cs, i);
    BucketsAreDistinct(cs);
  }

  lemma EveryChargeIsGrouped(cs: seq<Charge>, j: nat) returns (i: nat)
    requires j < |cs|
    ensures i < |GroupsOf(cs)| && Belongs(cs[j], GroupsOf(cs)[i].bucket)
  {
    BucketIsThere(cs, j);
    i :| 0 <= i < |BucketsOf(cs)| && BucketsOf(cs)[i] == BucketOf(cs[j]);
  }

  lemma {:induction false} BucketIsThere(cs: seq<Charge>, j: nat)
    requires j < |cs|
    ensures BucketOf(cs[j]) in BucketsOf(cs)
  {
    if j < |cs| - 1 {
      assert cs[..|cs| - 1][j] == cs[j];
      BucketIsThere(cs[..|cs| - 1], j);
    }
  }

  /** More input only adds groups at the end. */
  lemma {:induction false} BucketsComeInOrder(cs: seq<Charge>, n: nat)
    requires n <= |cs|
    ensures |BucketsOf(cs[..n])| <= |BucketsOf(cs)| && BucketsOf(cs)[..|BucketsOf(cs[..n])|] == BucketsOf(cs[..n])
  {
    if n < |cs| {
      BucketsComeInOrder(cs[..|cs| - 1], n);
      assert cs[..|cs| - 1][..n] == cs[..n];
    } else {
      assert cs[..n] == cs;
    }
  }

  // ---------------------------------------------------------------- columns of an aggregate

  function Named(values: seq<Option<string>>, v: string): nat {
    if values == [] then 0 else Named(values[..|values| - 1], v) + Bit(values[|values| - 1] == Some(v))
  }

  /** The value given most often, or none when no value is given; empty ones count as not given. */
  ghost predicate CommonestOf(m: Option<string>, values: seq<Option<string>>) {
    && (m.None? ==> forall k :: 0 <= k < |values| ==> values[k].None? || values[k].value == "")
    && (m.Some? ==> m.value != "" && Named(values, m.value) > 0)
    && (m.Some? ==>
          forall k :: 0 <= k < |values| && values[k].Some? && values[k].value != "" ==>
            Named(values, values[k].value) <= Named(values, m.value))
  }

  lemma {:induction false} PresentCounts(values: seq<Option<string>>, v: string)
    requires v != ""
    ensures Occurrences(Present(values), v) == Named(values, v)
  {
    if values != [] {
      var front, last := Present(values[..|values| - 1]), values[|values| - 1];
      PresentCounts(values[..|values| - 1], v);
      if last.Some? && last.value != "" {
        assert (front + [last.value])[..|front|] == front;
      } else {
        assert front + [] == front;
      }
    }
  }

  lemma {:induction false} GivenIsNamed(values: seq<Option<string>>, k: nat)
    requires k < |values| && values[k].Some?
    ensures Named(values, values[k].value) > 0
  {
    if k < |values| - 1 {
      assert values[..|values| - 1][k] == values[k];
      GivenIsNamed(values[..|values| - 1], k);
    }
  }

  lemma ModeIsCommonestOf(values: seq<Option<string>>)
    ensures CommonestOf(Mode(values), values)
  {
    var m := Mode(values);
    forall k | 0 <= k < |values| && values[k].Some? && values[k].value != ""
      ensures m.Some? && m.value != "" && Named(values, values[k].value) <= Named(values, m.value) && Named(values, m.value) > 0
    {
      ModeIsCommonest(values, values[k].value);
      PresentCounts(values, values[k].value);
      PresentCounts(values, m.value);
      GivenIsNamed(values, k);
    }
    if m.Some? && (forall k :: 0 <= k < |values| ==> values[k].None? || values[k].value == "") {
      NothingPresent(values);
    }
  }

  /** On a tie the value that was given first wins. */
  lemma {:induction false} TieGoesToTheFirst(values: seq<string>, distinct: seq<string>) returns (m: nat)
    requires distinct != []
    ensures m < |distinct| && distinct[m] == MostCommon(values, distinct)
    ensures forall k :: 0 <= k < m ==> Occurrences(values, distinct[k]) < Occurrences(values, distinct[m])
    ensures forall k :: 0 <= k < |distinct| ==> Occurrences(values, distinct[k]) <= Occurrences(values, distinct[m])
  {
    if |distinct| == 1 {
      m := 0;
    } else {
      var front := distinct[..|distinct| - 1];
      m := TieGoesToTheFirst(values, front);
      forall k | 0 <= k < |front| ensures distinct[k] == front[k] {}
      if MostCommon(values, distinct) != front[m] { m := |front|; }
    }
  }

  function NamesOf(rows: seq<Charge>): (r: seq<Option<string>>)
    ensures |r| == |rows| && forall k :: 0 <= k < |rows| ==> r[k] == Some(rows[k].service)
  {
    if rows == [] then [] else NamesOf(rows[..|rows| - 1]) + [Some(rows[|rows| - 1].service)]
  }

  lemma {:induction false} ServicesAre(rows: seq<Charge>)
    ensures Services(rows) == NamesOf(rows)
  {
    if rows != [] {
      ServicesAre(rows[..|rows| - 1]);
    }
  }

  /** Each label is the commonest of its own column. */
  lemma LabelsAreCommonest(rows: seq<Charge>)
    ensures CommonestOf(LabelsOf(rows).region, RegionsOf(rows))
    ensures CommonestOf(LabelsOf(rows).pricingCategory, PricingsOf(rows))
    ensures CommonestOf(LabelsOf(rows).resourceId, ResourcesOf(rows))
    ensures CommonestOf(LabelsOf(rows).subAccountId, SubAccountsOf(rows))
  {
    ModeIsCommonestOf(RegionsOf(rows));
    ModeIsCommonestOf(PricingsOf(rows));
    ModeIsCommonestOf(ResourcesOf(rows));
    ModeIsCommonestOf(SubAccountsOf(rows));
  }

  /** The aggregate of a bucket: its period, the exact sums and number of its charges, their
      currency, the commonest native name and the commonest labels. */
  lemma AggregateIsExact(cs: seq<Charge>, i: nat)
    requires i < |GroupsOf(cs)| && Unmixed(cs)
    ensures var a, b := AggregatesOf(GroupsOf(cs))[i], GroupsOf(cs)[i].bucket;
      && a.periodStart == b.periodStart && a.periodEnd == b.periodEnd
      && a.cost == CostOf(cs, b) && a.count == NumberOf(cs, b)
      && (forall k :: 0 <= k < |ChargesOf(cs, b)| ==> ChargesOf(cs, b)[k].currency == a.currency)
      && (a.service == b.service || CommonestOf(Some(a.service), NamesOf(ChargesOf(cs, b))))
  {
    var g := GroupsOf(cs)[i];
    GroupsAreExact(cs, i);
    RowsAreCharges(cs, g.bucket);
    ModeIsCommonestOf(NamesOf(g.rows));
    ServicesAre(g.rows);
    OneCurrencyInGroup(cs, i);
  }

  /** Its labels, its tags and its lists are those of its charges too. */
  lemma AggregateColumns(cs: seq<Charge>, i: nat)
    requires i < |GroupsOf(cs)|
    ensures var a, rows := AggregatesOf(GroupsOf(cs))[i], ChargesOf(cs, GroupsOf(cs)[i].bucket);
      && CommonestOf(a.labels.region, RegionsOf(rows)) && CommonestOf(a.labels.pricingCategory, PricingsOf(rows))
      && CommonestOf(a.labels.resourceId, ResourcesOf(rows)) && CommonestOf(a.labels.subAccountId, SubAccountsOf(rows))
      && (forall d :: d in a.tags <==> d != map[] && exists k :: 0 <= k < |rows| && d in rows[k].tags)
      && ((forall k :: 0 <= k < |rows| ==> |rows[k].tags| == 1 && |rows[k].perRowCosts| == 1) ==>
            && |a.perRowTags| == |a.perRowCosts| == |rows|
            && forall k :: 0 <= k < |rows| ==> a.perRowTags[k] == rows[k].tags[0] && a.perRowCosts[k] == rows[k].perRowCosts[0])
  {
    var rows := ChargesOf(cs, GroupsOf(cs)[i].bucket);
    GroupsAreExact(cs, i);
    LabelsAreCommonest(rows);
    UniqueTagsAreExact(FlatTags(rows));
    forall d ensures d in FlatTags(rows) <==> exists k :: 0 <= k < |rows| && d in rows[k].tags { FlatTagsMembers(rows, d); }
    if forall k :: 0 <= k < |rows| ==> |rows[k].tags| == 1 && |rows[k].perRowCosts| == 1 { FlatIsRowByRow(rows); }
  }

  lemma {:induction false} FlatTagsMembers(rows: seq<Charge>, d: Tags)
    ensures d in FlatTags(rows) <==> exists k :: 0 <= k < |rows| && d in rows[k].tags
  {
    if rows != [] {
      FlatTagsMembers(rows[..|rows| - 1], d);
    }
  }

  lemma OneCurrencyInGroup(cs: seq<Charge>, i: nat)
    requires i < |GroupsOf(cs)| && Unmixed(cs)
    ensures OneCurrency(GroupsOf(cs)[i].rows)
  {
    if !OneCurrency(GroupsOf(cs)[i].rows) {
      assert GroupsOf(cs)[i].rows == RowsOf(cs, BucketsOf(cs)[i]);
      MixedBucket(cs, BucketsOf(cs)[i]);
    }
  }

  // ---------------------------------------------------------------- per-row lists and unique tags

  /** Charges of one input row each: the flattened lists are their tags and costs, row by row. */
  lemma {:induction false} FlatIsRowByRow(rows: seq<Charge>)
    requires forall k :: 0 <= k < |rows| ==> |rows[k].tags| == 1 && |rows[k].perRowCosts| == 1
    ensures |FlatTags(rows)| == |FlatCosts(rows)| == |rows|
    ensures forall k :: 0 <= k < |rows| ==> FlatTags(rows)[k] == rows[k].tags[0] && FlatCosts(rows)[k] == rows[k].perRowCosts[0]
  {
    if rows != [] {
      FlatIsRowByRow(rows[..|rows| - 1]);
    }
  }

  /** The unique tags are the non-empty dicts, each once. */
  lemma {:induction false} UniqueTagsAreExact(dicts: seq<Tags>)
    ensures forall d :: d in UniqueTags(dicts) <==> d in dicts && d != map[]
    ensures forall i, j :: 0 <= i < j < |UniqueTags(dicts)| ==> UniqueTags(dicts)[i] != UniqueTags(dicts)[j]
  {
    if dicts != [] {
      UniqueTagsAreExact(dicts[..|dicts| - 1]);
      assert dicts == dicts[..|dicts| - 1] + [dicts[|dicts| - 1]];
    }
  }

  /** More input only adds dicts at the end. */
  lemma {:induction false} UniqueTagsComeInOrder(dicts: seq<Tags>, n: nat)
    requires n <= |dicts|
    ensures |UniqueTags(dicts[..n])| <= |UniqueTags(dicts)| && UniqueTags(dicts)[..|UniqueTags(dicts[..n])|] == UniqueTags(dicts[..n])
  {
    if n < |dicts| {
      UniqueTagsComeInOrder(dicts[..|dicts| - 1], n);
      assert dicts[..|dicts| - 1][..n] == dicts[..n];
    } else {
      assert dicts[..n] == dicts;
    }
  }
}
