/** What an ingest leaves in every column, and what a report shows after a file was ingested over
    another one (apps/api/src/constat_api/repositories/focus_charges.py). */
module StoredFields {
  import opened Wrappers
  import opened Focus
  import opened FocusAggregator
  import opened FocusStorage
  import opened FocusStorageLaws
  import opened FocusReadback
  import opened Chargeback
  import opened ChargebackLaws

  /** The storage key, field by field. */
  predicate SameKey(r: ChargeRow, account: string, a: Aggregated) {
    && r.account == account && r.periodStart == a.periodStart && r.periodEnd == a.periodEnd
    && (if r.canonical.Some? then r.canonical.value else r.service) == (if a.canonical.Some? then a.canonical.value else a.service)
  }

  lemma KeysAgreeByField(r: ChargeRow, account: string, a: Aggregated)
    ensures KeyOfRow(r) == KeyOfAggregate(account, a) <==> SameKey(r, account, a)
  {
  }

  /** Every column the ingest writes. */
  predicate Carries(r: ChargeRow, account: string, a: Aggregated) {
    && r.account == account && r.canonical == a.canonical && r.periodStart == a.periodStart && r.periodEnd == a.periodEnd
    && r.cost == a.cost && r.count == a.count && r.tags == a.tags && r.currency == a.currency && r.labels == a.labels
  }

  /** The tag rows of row `k` are one per input row and key, with that row's value and cost, zero
      when there is none. */
  ghost predicate HasTagRows(tagRows: set<TagRow>, k: nat, a: Aggregated) {
    forall r: TagRow :: r.charge == k ==>
      (r in tagRows <==>
        && r.rowIndex < |a.perRowTags| && r.key in a.perRowTags[r.rowIndex] && r.value == a.perRowTags[r.rowIndex][r.key]
        && r.cost == if r.rowIndex < |a.perRowCosts| then a.perRowCosts[r.rowIndex] else Cost(0.0, 0.0))
  }

  lemma WrittenTagRows(tagRows: set<TagRow>, k: nat, a: Aggregated)
    requires OfCharge(tagRows, k) == RowsFor(k, a.perRowTags, a.perRowCosts)
    ensures HasTagRows(tagRows, k, a)
  {
    forall r: TagRow | r.charge == k ensures r in tagRows <==> r in RowsFor(k, a.perRowTags, a.perRowCosts) {
      assert r in tagRows <==> r in OfCharge(tagRows, k);
    }
  }

  // ---------------------------------------------------------------- columns after an ingest

  /** A row that was there keeps its account, period and native name through any ingest. */
  lemma {:induction false} RowsKeepTheirIdentity(s: Store, account: string, aggs: seq<Aggregated>, k: nat)
    requires k < |s.charges|
    ensures var t := UpsertAll(s, account, aggs);
      && k < |t.charges| && t.charges[k].account == s.charges[k].account && t.charges[k].service == s.charges[k].service
      && t.charges[k].periodStart == s.charges[k].periodStart && t.charges[k].periodEnd == s.charges[k].periodEnd
  {
    if aggs != [] {
      RowsKeepTheirIdentity(s, account, aggs[..|aggs| - 1], k);
    }
  }

  /** A row that came with the ingest has the native name of one of its aggregates. */
  lemma {:induction false} NewRowsAreNamed(s: Store, account: string, aggs: seq<Aggregated>, k: nat) returns (i: nat)
    requires |s.charges| <= k < |UpsertAll(s, account, aggs).charges|
    ensures i < |aggs| && UpsertAll(s, account, aggs).charges[k].service == aggs[i].service
    ensures UpsertAll(s, account, aggs).charges[k].account == account
  {
    var front := aggs[..|aggs| - 1];
    var t := UpsertAll(s, account, front);
    if k < |t.charges| {
      i := NewRowsAreNamed(s, account, front, k);
    } else {
      i := |front|;
    }
  }

  /** After an ingest of aggregates with distinct keys that keep their keys, each aggregate has a
      row under its key, and that row says what the aggregate says, column by column, tag rows
      included. */
  lemma IngestWritesEveryColumn(s: Store, account: string, aggs: seq<Aggregated>, i: nat) returns (k: nat)
    requires UniqueKeys(s.charges) && DistinctKeys(account, aggs) && AllKeepTheirKeys(s, account, aggs) && i < |aggs|
    ensures var t := UpsertAll(s, account, aggs);
      && k < |t.charges| && SameKey(t.charges[k], account, aggs[i]) && Carries(t.charges[k], account, aggs[i])
      && (aggs[i].perRowTags != [] ==> HasTagRows(t.tagRows, k, aggs[i]))
      && UniqueKeys(t.charges)
  {
    k := IngestSettles(s, account, aggs, i);
    var t := UpsertAll(s, account, aggs);
    KeysAgreeByField(t.charges[k], account, aggs[i]);
    if aggs[i].perRowTags != [] { WrittenTagRows(t.tagRows, k, aggs[i]); }
  }

  /** And what is read back for that row says it too. */
  lemma ReadBackSaysTheAggregate(s: Store, account: string, aggs: seq<Aggregated>, read: seq<Charge>, i: nat) returns (k: nat)
    requires UniqueKeys(s.charges) && DistinctKeys(account, aggs) && AllKeepTheirKeys(s, account, aggs) && i < |aggs|
    requires IsReadBack(read, UpsertAll(s, account, aggs).charges)
    ensures k < |read| && read[k].account == account && read[k].canonical == aggs[i].canonical
    ensures read[k].periodStart == aggs[i].periodStart && read[k].periodEnd == aggs[i].periodEnd
    ensures read[k].cost == aggs[i].cost && read[k].currency == aggs[i].currency && read[k].labels == aggs[i].labels
    ensures k < |s.charges| ==> read[k].service == s.charges[k].service
  {
    k := IngestWritesEveryColumn(s, account, aggs, i);
    if k < |s.charges| { RowsKeepTheirIdentity(s, account, aggs, k); }
  }

  /** An aggregate without input rows leaves the tag table alone. */
  lemma NoRowsNoChange(s: Store, account: string, a: Aggregated)
    requires a.perRowTags == []
    ensures UpsertOne(s, account, a).tagRows == s.tagRows
  {
  }

  /** The count of insertions is the number of new rows. */
  lemma {:induction false} InsertedAreNew(s: Store, account: string, aggs: seq<Aggregated>)
    ensures |UpsertAll(s, account, aggs).charges| == |s.charges| + InsertedCount(s, account, aggs)
  {
    if aggs != [] {
      InsertedAreNew(s, account, aggs[..|aggs| - 1]);
    }
  }

  // ---------------------------------------------------------------- a file over another one

  /** Rows of one account that have no empty canonical name. */
  ghost predicate OneAccount(charges: seq<ChargeRow>, account: string) {
    forall k :: 0 <= k < |charges| ==> charges[k].account == account && charges[k].canonical != Some("")
  }

  lemma {:induction false} IngestStaysInAccount(s: Store, account: string, aggs: seq<Aggregated>)
    requires OneAccount(s.charges, account) && forall i :: 0 <= i < |aggs| ==> aggs[i].canonical != Some("")
    ensures OneAccount(UpsertAll(s, account, aggs).charges, account)
  {
    if aggs != [] {
      IngestStaysInAccount(s, account, aggs[..|aggs| - 1]);
    }
  }

  lemma FileNamesNoEmptyCanonical(cs: seq<Charge>, i: nat)
    requires i < |GroupsOf(cs)|
    ensures AggregatesOf(GroupsOf(cs))[i].canonical != Some("")
  {
    GroupRows(cs, i);
    AggregateKeepsItsKey(GroupsOf(cs)[i].bucket, GroupsOf(cs)[i].rows);
  }

  lemma ReadKeyIsStorageKey(r: ChargeRow, c: Charge)
    requires r.canonical != Some("") && c == ReadBack(r, c.tags, c.perRowCosts)
    ensures KeyOf(c, None)
      == CostKey(r.account, if r.canonical.Some? then r.canonical.value else r.service, r.periodStart, r.periodEnd, r.currency, None)
  {
  }

  /** A period report of rows with distinct storage keys shows each row as it is. */
  lemma ReportShowsRows(account: string, charges: seq<ChargeRow>, read: seq<Charge>)
    requires UniqueKeys(charges) && OneAccount(charges, account) && IsReadBack(read, charges)
    ensures var rs := Aggregates(PeriodPostings(read));
      |rs| == |charges| && forall k :: 0 <= k < |rs| ==> rs[k] == AggregatedCost(KeyOf(read[k], None), charges[k].cost, 1)
  {
    var ps := PeriodPostings(read);
    forall i, j | 0 <= i < j < |ps| ensures ps[i].key != ps[j].key {
      ReadKeyIsStorageKey(charges[i], read[i]);
      ReadKeyIsStorageKey(charges[j], read[j]);
      assert KeyOfRow(charges[i]) != KeyOfRow(charges[j]);
    }
    DistinctPostings(ps);
    forall k | 0 <= k < |ps| ensures Aggregates(ps)[k] == AggregatedCost(KeyOf(read[k], None), charges[k].cost, 1) {
      assert KeysOf(ps)[k] == ps[k].key;
    }
  }

  /** A changed file over a stored one, on a table of one account: the report has one aggregate per
      row, and for each bucket of the new file one that shows the new file's key, currency and
      direct sums. */
  lemma ReingestShowsTheNewFile(account: string, s: Store, cs: seq<Charge>, read: seq<Charge>, i: nat) returns (k: nat)
    requires UniqueKeys(s.charges) && OneAccount(s.charges, account) && i < |GroupsOf(cs)|
    requires AllKeepTheirKeys(s, account, AggregatesOf(GroupsOf(cs)))
    requires IsReadBack(read, UpsertAll(s, account, AggregatesOf(GroupsOf(cs))).charges)
    ensures |Aggregates(PeriodPostings(read))| == |UpsertAll(s, account, AggregatesOf(GroupsOf(cs))).charges|
    ensures k < |Aggregates(PeriodPostings(read))| && Aggregates(PeriodPostings(read))[k] == ReportOf(account, cs, i)
  {
    var aggs := AggregatesOf(GroupsOf(cs));
    var t := UpsertAll(s, account, aggs);
    AggregatorOutputIsDistinct(account, cs);
    forall m | 0 <= m < |aggs| ensures aggs[m].canonical != Some("") { FileNamesNoEmptyCanonical(cs, m); }
    IngestStaysInAccount(s, account, aggs);
    k := IngestWritesEveryColumn(s, account, aggs, i);
    ReportShowsRows(account, t.charges, read);
    ReadKeyIsStorageKey(t.charges[k], read[k]);
    GroupRows(cs, i);
    AggregateKeepsItsKey(GroupsOf(cs)[i].bucket, GroupsOf(cs)[i].rows);
  }

  /** The buckets of the old file that the new one does not have are shown as before. */
  lemma ReingestKeepsOtherBuckets(account: string, s: Store, cs: seq<Charge>, read: seq<Charge>, k: nat)
    requires UniqueKeys(s.charges) && OneAccount(s.charges, account) && k < |s.charges|
    requires AllKeepTheirKeys(s, account, AggregatesOf(GroupsOf(cs)))
    requires forall i :: 0 <= i < |GroupsOf(cs)| ==> !SameKey(s.charges[k], account, AggregatesOf(GroupsOf(cs))[i])
    requires IsReadBack(read, UpsertAll(s, account, AggregatesOf(GroupsOf(cs))).charges)
    ensures k < |read| && read[k] == ReadBack(s.charges[k], read[k].tags, read[k].perRowCosts)
    ensures k < |Aggregates(PeriodPostings(read))|
    ensures Aggregates(PeriodPostings(read))[k] == AggregatedCost(KeyOf(read[k], None), s.charges[k].cost, 1)
  {
    var aggs := AggregatesOf(GroupsOf(cs));
    var t := UpsertAll(s, account, aggs);
    AggregatorOutputIsDistinct(account, cs);
    forall m | 0 <= m < |aggs| ensures aggs[m].canonical != Some("") && KeyOfAggregate(account, aggs[m]) != KeyOfRow(s.charges[k]) {
      FileNamesNoEmptyCanonical(cs, m);
      KeysAgreeByField(s.charges[k], account, aggs[m]);
    }
    IngestStaysInAccount(s, account, aggs);
    IngestStaysUnique(s, account, aggs);
    OtherKeysAreUntouched(s, account, aggs, k);
    ReportShowsRows(account, t.charges, read);
  }

  lemma IngestStaysUnique(s: Store, account: string, aggs: seq<Aggregated>)
    requires UniqueKeys(s.charges) && DistinctKeys(account, aggs) && AllKeepTheirKeys(s, account, aggs)
    ensures UniqueKeys(UpsertAll(s, account, aggs).charges)
  {
    if aggs != [] {
      var k := IngestSettles(s, account, aggs, 0);
    }
  }
}
