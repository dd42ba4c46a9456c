/** One row per storage key, idempotent ingests, and when the key can go wrong
    (apps/api/src/constat_api/repositories/focus_charges.py). */
module FocusStorageLaws {
  import opened Wrappers
  import opened Focus
  import opened FocusAggregator
  import opened FocusStorage

  // ---------------------------------------------------------------- when an update moves a key

  /** An update leaves the native name but overwrites the canonical one. The row keeps its
      storage key exactly when the new aggregate has a canonical name, or the same native one. */
  lemma UpdateKeepsKeyExactlyWhen(r: ChargeRow, account: string, a: Aggregated)
    requires KeyOfRow(r) == KeyOfAggregate(account, a)
    ensures KeyOfRow(Updated(r, a)) == KeyOfRow(r) <==> a.canonical.Some? || r.service == a.service
  {
  }

  /** The guard: the upsert inserts, or it updates a row without moving it to another key. */
  predicate KeepsItsKey(s: Store, account: string, a: Aggregated) {
    var k := Find(s.charges, KeyOfAggregate(account, a));
    k.None? || a.canonical.Some? || s.charges[k.value].service == a.service
  }

  /** One upsert keeps the keys distinct exactly when it inserts, or the aggregate has a canonical
      name or the native name of the row it updates, or no row is stored under that row's native
      name for the period. */
  lemma UpsertKeepsKeysExactlyWhen(s: Store, account: string, a: Aggregated)
    requires UniqueKeys(s.charges)
    ensures var k := Find(s.charges, KeyOfAggregate(account, a));
      UniqueKeys(UpsertOne(s, account, a).charges) <==>
        || KeepsItsKey(s, account, a)
        || Find(s.charges, StoreKey(account, Bucket(s.charges[k.value].service, a.periodStart, a.periodEnd))).None?
  {
    var k := Find(s.charges, KeyOfAggregate(account, a));
    if k.Some? {
      var r := s.charges[k.value];
      var v := UpsertOne(s, account, a).charges;
      UpdateKeepsKeyExactlyWhen(r, account, a);
      assert v[k.value] == Updated(r, a) && forall j :: 0 <= j < |v| && j != k.value ==> v[j] == s.charges[j];
      var native := Find(s.charges, StoreKey(account, Bucket(r.service, a.periodStart, a.periodEnd)));
      if a.canonical.None? && r.service != a.service && native.Some? {
        assert native.value != k.value;
        assert KeyOfRow(v[native.value]) == KeyOfRow(v[k.value]);
      }
    }
  }

  /** Canonical names come from a catalog; no native name without a canonical is one of them. */
  ghost predicate Named(catalog: set<string>, canonical: Option<string>, service: string) {
    if canonical.Some? then canonical.value in catalog else service !in catalog
  }

  ghost predicate RowsNamed(catalog: set<string>, charges: seq<ChargeRow>) {
    forall k :: 0 <= k < |charges| ==> Named(catalog, charges[k].canonical, charges[k].service)
  }

  ghost predicate AggregatesNamed(catalog: set<string>, aggs: seq<Aggregated>) {
    forall k :: 0 <= k < |aggs| ==> Named(catalog, aggs[k].canonical, aggs[k].service)
  }

  ghost predicate StoreOk(catalog: set<string>, s: Store) {
    && UniqueKeys(s.charges) && RowsNamed(catalog, s.charges)
    && forall r :: r in s.tagRows ==> r.charge < |s.charges|
  }

  /** The discipline gives the guard for every aggregate. */
  lemma NamedKeepsItsKey(catalog: set<string>, s: Store, account: string, a: Aggregated)
    requires StoreOk(catalog, s) && Named(catalog, a.canonical, a.service)
    ensures KeepsItsKey(s, account, a)
  {
  }

  lemma UpsertOneKeeps(catalog: set<string>, s: Store, account: string, a: Aggregated)
    requires StoreOk(catalog, s) && Named(catalog, a.canonical, a.service)
    ensures StoreOk(catalog, UpsertOne(s, account, a))
  {
    NamedKeepsItsKey(catalog, s, account, a);
    UpsertKeepsKeysExactlyWhen(s, account, a);
  }

  /** Every ingest keeps one row per (account, coalesced service, period), so its lookups never
      find two. */
  lemma {:induction false} IngestKeepsOneRowPerKey(catalog: set<string>, s: Store, account: string, aggs: seq<Aggregated>)
    requires StoreOk(catalog, s) && AggregatesNamed(catalog, aggs)
    ensures StoreOk(catalog, UpsertAll(s, account, aggs))
    ensures NeverAmbiguous(s, account, aggs)
  {
    if aggs != [] {
      var front := aggs[..|aggs| - 1];
      IngestKeepsOneRowPerKey(catalog, s, account, front);
      UpsertOneKeeps(catalog, UpsertAll(s, account, front), account, aggs[|aggs| - 1]);
    }
  }

  /** Without that discipline the promise fails: a native service called like a canonical one
      turns two rows with different keys into two rows with the same key. */
  lemma NativeNamedLikeCanonicalCollides()
    ensures var rds := ChargeRow("1", "Amazon RDS", Some("managed_postgres"), 0, 30, ZERO, 1, [], "USD", NO_LABELS);
      var plain := ChargeRow("1", "Amazon RDS", None, 0, 30, ZERO, 1, [], "USD", NO_LABELS);
      var a := Aggregated("managed_postgres", None, 0, 30, ZERO, 1, [], [], [], "USD", NO_LABELS);
      var s := Store([rds, plain], {});
      UniqueKeys(s.charges) && !UniqueKeys(UpsertOne(s, "1", a).charges)
      && Ambiguous(UpsertOne(s, "1", a).charges, KeyOfRow(plain))
  {
    var rds := ChargeRow("1", "Amazon RDS", Some("managed_postgres"), 0, 30, ZERO, 1, [], "USD", NO_LABELS);
    var plain := ChargeRow("1", "Amazon RDS", None, 0, 30, ZERO, 1, [], "USD", NO_LABELS);
    var a := Aggregated("managed_postgres", None, 0, 30, ZERO, 1, [], [], [], "USD", NO_LABELS);
    var charges := [rds, plain];
    assert KeyOfRow(rds).bucket.service == "managed_postgres" && KeyOfRow(plain).bucket.service == "Amazon RDS";
    assert "managed_postgres"[0] != "Amazon RDS"[0];
    assert KeyOfRow(charges[0]) == KeyOfAggregate("1", a);
    assert KeyOfRow(charges[1]) != KeyOfAggregate("1", a);
    var k := Find(charges, KeyOfAggregate("1", a));
    assert k == Some(0);
    var v := UpsertOne(Store(charges, {}), "1", a).charges;
    assert v[0] == Updated(rds, a) && v[1] == plain;
    assert KeyOfRow(v[0]) == KeyOfRow(v[1]) == KeyOfRow(plain);
  }

  // ---------------------------------------------------------------- idempotence

  ghost predicate DistinctKeys(account: string, aggs: seq<Aggregated>) {
    forall i, j :: 0 <= i < j < |aggs| ==> KeyOfAggregate(account, aggs[i]) != KeyOfAggregate(account, aggs[j])
  }

  /** Row `k` already says what the aggregate says, tag rows included. */
  ghost predicate SettledAt(s: Store, k: nat, account: string, a: Aggregated) {
    && k < |s.charges| && KeyOfRow(s.charges[k]) == KeyOfAggregate(account, a)
    && s.charges[k] == Updated(s.charges[k], a)
    && (a.perRowTags == [] || OfCharge(s.tagRows, k) == RowsFor(k, a.perRowTags, a.perRowCosts))
  }

  ghost predicate Settled(s: Store, account: string, a: Aggregated) {
    exists k: nat :: SettledAt(s, k, account, a)
  }

  lemma RowsForAreOfCharge(id: nat, dicts: seq<Tags>, costs: seq<Cost>)
    ensures forall r :: r in RowsFor(id, dicts, costs) ==> r.charge == id
  {
  }

  lemma WrittenElsewhere(tagRows: set<TagRow>, id: nat, dicts: seq<Tags>, costs: seq<Cost>, k: nat)
    requires k != id
    ensures OfCharge(Written(tagRows, id, dicts, costs), k) == OfCharge(tagRows, k)
  {
    RowsForAreOfCharge(id, dicts, costs);
  }

  lemma WrittenHere(tagRows: set<TagRow>, id: nat, dicts: seq<Tags>, costs: seq<Cost>)
    requires dicts != []
    ensures OfCharge(Written(tagRows, id, dicts, costs), id) == RowsFor(id, dicts, costs)
  {
    RowsForAreOfCharge(id, dicts, costs);
  }

  lemma WrittenAgain(tagRows: set<TagRow>, id: nat, dicts: seq<Tags>, costs: seq<Cost>)
    requires dicts == [] || OfCharge(tagRows, id) == RowsFor(id, dicts, costs)
    ensures Written(tagRows, id, dicts, costs) == tagRows
  {
    if dicts != [] {
      assert tagRows == Others(tagRows, id) + OfCharge(tagRows, id);
    }
  }

  lemma UpsertSettles(s: Store, account: string, a: Aggregated) returns (k: nat)
    requires KeepsItsKey(s, account, a)
    ensures SettledAt(UpsertOne(s, account, a), k, account, a)
  {
    var found := Find(s.charges, KeyOfAggregate(account, a));
    k := if found.Some? then found.value else |s.charges|;
    if found.Some? { UpdateKeepsKeyExactlyWhen(s.charges[k], account, a); }
    if a.perRowTags != [] { WrittenHere(s.tagRows, k, a.perRowTags, a.perRowCosts); }
  }

  /** Doing an upsert twice in a row is doing it once exactly under the guard: otherwise the row
      has left its key, and the second time inserts a new one. */
  lemma UpsertTwiceIsOnceExactlyWhen(s: Store, account: string, a: Aggregated)
    requires !Ambiguous(s.charges, KeyOfAggregate(account, a))
    ensures UpsertOne(UpsertOne(s, account, a), account, a) == UpsertOne(s, account, a) <==> KeepsItsKey(s, account, a)
    ensures !KeepsItsKey(s, account, a) ==>
      |UpsertOne(UpsertOne(s, account, a), account, a).charges| == |s.charges| + 1
  {
    var key := KeyOfAggregate(account, a);
    var found := Find(s.charges, key);
    var v := UpsertOne(s, account, a);
    if KeepsItsKey(s, account, a) {
      var k := UpsertSettles(s, account, a);
      OnlyRowOfKey(s, account, a, k);
      SettledIsFixed(v, k, account, a);
    } else {
      UpdateKeepsKeyExactlyWhen(s.charges[found.value], account, a);
      forall m | 0 <= m < |v.charges| ensures KeyOfRow(v.charges[m]) != key {
        if m != found.value { assert v.charges[m] == s.charges[m]; }
      }
    }
  }

  /** With no second row of the key before, there is none after. */
  lemma OnlyRowOfKey(s: Store, account: string, a: Aggregated, k: nat)
    requires !Ambiguous(s.charges, KeyOfAggregate(account, a)) && KeepsItsKey(s, account, a)
    requires SettledAt(UpsertOne(s, account, a), k, account, a)
    ensures Find(UpsertOne(s, account, a).charges, KeyOfAggregate(account, a)) == Some(k)
  {
    var key := KeyOfAggregate(account, a);
    var found := Find(s.charges, key);
    var v := UpsertOne(s, account, a);
    forall m | 0 <= m < |s.charges| && found != Some(m) ensures KeyOfRow(v.charges[m]) != key {
      assert v.charges[m] == s.charges[m];
    }
  }

  lemma OthersStaySettled(s: Store, k: nat, account: string, a: Aggregated, b: Aggregated)
    requires SettledAt(s, k, account, a) && KeyOfAggregate(account, a) != KeyOfAggregate(account, b)
    ensures SettledAt(UpsertOne(s, account, b), k, account, a)
  {
    var found := Find(s.charges, KeyOfAggregate(account, b));
    WrittenElsewhere(s.tagRows, if found.Some? then found.value else |s.charges|, b.perRowTags, b.perRowCosts, k);
  }

  lemma SettledIsFixed(s: Store, k: nat, account: string, a: Aggregated)
    requires SettledAt(s, k, account, a) && Find(s.charges, KeyOfAggregate(account, a)) == Some(k)
    ensures UpsertOne(s, account, a) == s
  {
    WrittenAgain(s.tagRows, k, a.perRowTags, a.perRowCosts);
    assert s.charges[k := Updated(s.charges[k], a)] == s.charges;
  }

  /** An upsert under the guard leaves the guard of other keys as it was. */
  lemma GuardStays(s: Store, account: string, a: Aggregated, b: Aggregated)
    requires KeepsItsKey(s, account, a) && KeepsItsKey(s, account, b)
    requires KeyOfAggregate(account, a) != KeyOfAggregate(account, b) && UniqueKeys(s.charges)
    ensures KeepsItsKey(UpsertOne(s, account, a), account, b)
  {
    var v := UpsertOne(s, account, a);
    var found, at := Find(s.charges, KeyOfAggregate(account, a)), Find(v.charges, KeyOfAggregate(account, b));
    if found.Some? { UpdateKeepsKeyExactlyWhen(s.charges[found.value], account, a); }
    if at.Some? {
      assert at.value < |s.charges| && v.charges[at.value] == s.charges[at.value];
      assert Find(s.charges, KeyOfAggregate(account, b)) == at;
    }
  }

  /** Every aggregate of the ingest keeps its key on the store as it is before the ingest. */
  predicate AllKeepTheirKeys(s: Store, account: string, aggs: seq<Aggregated>) {
    forall i :: 0 <= i < |aggs| ==> KeepsItsKey(s, account, aggs[i])
  }

  /** The guards checked before the ingest still hold when each aggregate's turn comes. */
  lemma {:induction false} GuardsStay(s: Store, account: string, aggs: seq<Aggregated>, b: Aggregated)
    requires UniqueKeys(s.charges) && DistinctKeys(account, aggs) && AllKeepTheirKeys(s, account, aggs)
    requires KeepsItsKey(s, account, b) && forall i :: 0 <= i < |aggs| ==> KeyOfAggregate(account, aggs[i]) != KeyOfAggregate(account, b)
    ensures UniqueKeys(UpsertAll(s, account, aggs).charges) && KeepsItsKey(UpsertAll(s, account, aggs), account, b)
  {
    if aggs != [] {
      var front, last := aggs[..|aggs| - 1], aggs[|aggs| - 1];
      GuardsStay(s, account, front, last);
      GuardsStay(s, account, front, b);
      UpsertKeepsKeysExactlyWhen(UpsertAll(s, account, front), account, last);
      GuardStays(UpsertAll(s, account, front), account, last, b);
    }
  }

  lemma {:induction false} IngestSettles(s: Store, account: string, aggs: seq<Aggregated>, i: nat) returns (k: nat)
    requires UniqueKeys(s.charges) && DistinctKeys(account, aggs) && AllKeepTheirKeys(s, account, aggs) && i < |aggs|
    ensures SettledAt(UpsertAll(s, account, aggs), k, account, aggs[i])
    ensures UniqueKeys(UpsertAll(s, account, aggs).charges)
  {
    var front, last := aggs[..|aggs| - 1], aggs[|aggs| - 1];
    var t := UpsertAll(s, account, front);
    GuardsStay(s, account, front, last);
    UpsertKeepsKeysExactlyWhen(t, account, last);
    if i < |front| {
      assert front[i] == aggs[i];
      k := IngestSettles(s, account, front, i);
      OthersStaySettled(t, k, account, aggs[i], last);
    } else {
      k := UpsertSettles(t, account, last);
    }
  }

  lemma {:induction false} SettledIngestIsIdle(t: Store, account: string, aggs: seq<Aggregated>)
    requires UniqueKeys(t.charges) && forall i :: 0 <= i < |aggs| ==> Settled(t, account, aggs[i])
    ensures UpsertAll(t, account, aggs) == t && InsertedCount(t, account, aggs) == 0
  {
    if aggs != [] {
      var front, last := aggs[..|aggs| - 1], aggs[|aggs| - 1];
      forall i | 0 <= i < |front| ensures Settled(t, account, front[i]) {
        assert front[i] == aggs[i];
      }
      SettledIngestIsIdle(t, account, front);
      assert Settled(t, account, aggs[|aggs| - 1]);
      var k: nat :| SettledAt(t, k, account, last);
      SettledIsFixed(t, k, account, last);
    }
  }

  /** A second ingest of the same aggregates inserts nothing and changes nothing, when each of
      them keeps its key. */
  lemma SecondIngestIsIdle(s: Store, account: string, aggs: seq<Aggregated>)
    requires UniqueKeys(s.charges) && DistinctKeys(account, aggs) && AllKeepTheirKeys(s, account, aggs)
    ensures var t := UpsertAll(s, account, aggs);
      UpsertAll(t, account, aggs) == t && InsertedCount(t, account, aggs) == 0
  {
    var t := UpsertAll(s, account, aggs);
    forall i | 0 <= i < |aggs| ensures Settled(t, account, aggs[i]) && UniqueKeys(t.charges) {
      var k := IngestSettles(s, account, aggs, i);
    }
    if aggs != [] { SettledIngestIsIdle(t, account, aggs); }
  }

  /** The discipline is enough for that. */
  lemma NamedKeepTheirKeys(catalog: set<string>, s: Store, account: string, aggs: seq<Aggregated>)
    requires StoreOk(catalog, s) && AggregatesNamed(catalog, aggs)
    ensures AllKeepTheirKeys(s, account, aggs)
  {
    forall i | 0 <= i < |aggs| ensures KeepsItsKey(s, account, aggs[i]) {
      NamedKeepsItsKey(catalog, s, account, aggs[i]);
    }
  }

  // ---------------------------------------------------------------- and only then

  ghost predicate HasKey(charges: seq<ChargeRow>, key: StoreKey) {
    exists k :: 0 <= k < |charges| && KeyOfRow(charges[k]) == key
  }

  /** Each aggregate keeps its key when its turn comes. */
  predicate EachTurnKeeps(s: Store, account: string, aggs: seq<Aggregated>) {
    aggs == [] ||
    (EachTurnKeeps(s, account, aggs[..|aggs| - 1]) &&
     KeepsItsKey(UpsertAll(s, account, aggs[..|aggs| - 1]), account, aggs[|aggs| - 1]))
  }

  lemma GuardWas(s: Store, account: string, front: seq<Aggregated>, last: Aggregated)
    requires UniqueKeys(UpsertAll(s, account, front).charges)
    requires forall i :: 0 <= i < |front| ==> KeyOfAggregate(account, front[i]) != KeyOfAggregate(account, last)
    requires KeepsItsKey(UpsertAll(s, account, front), account, last)
    ensures KeepsItsKey(s, account, last)
  {
    var t := UpsertAll(s, account, front);
    var k := Find(s.charges, KeyOfAggregate(account, last));
    if k.Some? {
      OtherKeysAreUntouched(s, account, front, k.value);
      assert Find(t.charges, KeyOfAggregate(account, last)) == k;
    }
  }

  lemma {:induction false} TurnsAreGuards(s: Store, account: string, aggs: seq<Aggregated>)
    requires UniqueKeys(s.charges) && DistinctKeys(account, aggs) && EachTurnKeeps(s, account, aggs)
    ensures UniqueKeys(UpsertAll(s, account, aggs).charges) && AllKeepTheirKeys(s, account, aggs)
  {
    if aggs != [] {
      var front, last := aggs[..|aggs| - 1], aggs[|aggs| - 1];
      TurnsAreGuards(s, account, front);
      UpsertKeepsKeysExactlyWhen(UpsertAll(s, account, front), account, last);
      GuardWas(s, account, front, last);
      GuardOfFront(s, account, aggs);
    }
  }

  lemma GuardOfFront(s: Store, account: string, aggs: seq<Aggregated>)
    requires aggs != [] && AllKeepTheirKeys(s, account, aggs[..|aggs| - 1]) && KeepsItsKey(s, account, aggs[|aggs| - 1])
    ensures AllKeepTheirKeys(s, account, aggs)
  {
    var front := aggs[..|aggs| - 1];
    forall i | 0 <= i < |front| ensures KeepsItsKey(s, account, aggs[i]) {
      assert front[i] == aggs[i];
    }
  }

  /** An upsert of another key gives no row the key, unless a row falls back to its native name. */
  lemma OtherUpsert(s: Store, account: string, a: Aggregated, key: StoreKey, m: nat)
    requires KeyOfAggregate(account, a) != key
    requires var v := UpsertOne(s, account, a).charges; m < |v| && KeyOfRow(v[m]) == key
    ensures var v := UpsertOne(s, account, a).charges;
      (m < |s.charges| && v[m] == s.charges[m]) || (!KeepsItsKey(s, account, a) && v[m].canonical.None?)
  {
    var k := Find(s.charges, KeyOfAggregate(account, a));
    if k == Some(m) { UpdateKeepsKeyExactlyWhen(s.charges[m], account, a); }
  }

  /** After the last aggregate that loses its key, no row has that key. */
  lemma {:induction false} LostKey(s: Store, account: string, aggs: seq<Aggregated>) returns (j: nat)
    requires DistinctKeys(account, aggs) && NeverAmbiguous(s, account, aggs) && !EachTurnKeeps(s, account, aggs)
    ensures j < |aggs| && aggs[j].canonical.None?
    ensures !HasKey(UpsertAll(s, account, aggs).charges, KeyOfAggregate(account, aggs[j]))
  {
    var front, last := aggs[..|aggs| - 1], aggs[|aggs| - 1];
    var t := UpsertAll(s, account, front);
    var v := UpsertOne(t, account, last).charges;
    if KeepsItsKey(t, account, last) {
      j := LostKey(s, account, front);
      assert front[j] == aggs[j];
      forall m | 0 <= m < |v| ensures KeyOfRow(v[m]) != KeyOfAggregate(account, aggs[j]) {
        if KeyOfRow(v[m]) == KeyOfAggregate(account, aggs[j]) {
          OtherUpsert(t, account, last, KeyOfAggregate(account, aggs[j]), m);
          assert false;
        }
      }
    } else {
      j := |front|;
      var k := Find(t.charges, KeyOfAggregate(account, last)).value;
      UpdateKeepsKeyExactlyWhen(t.charges[k], account, last);
      forall m | 0 <= m < |v| && m != k ensures KeyOfRow(v[m]) != KeyOfAggregate(account, last) {
        assert v[m] == t.charges[m];
      }
    }
  }

  /** Without a row of the key at the start, every row that gets it has fallen back to its native
      name. */
  lemma {:induction false} OnlyByNativeName(t: Store, account: string, aggs: seq<Aggregated>, key: StoreKey, m: nat)
    requires !HasKey(t.charges, key) && forall i :: 0 <= i < |aggs| ==> KeyOfAggregate(account, aggs[i]) != key
    requires var v := UpsertAll(t, account, aggs).charges; m < |v| && KeyOfRow(v[m]) == key
    ensures UpsertAll(t, account, aggs).charges[m].canonical.None?
  {
    if aggs != [] {
      var front, last := aggs[..|aggs| - 1], aggs[|aggs| - 1];
      var u := UpsertAll(t, account, front);
      OtherUpsert(u, account, last, key, m);
      if m < |u.charges| && UpsertOne(u, account, last).charges[m] == u.charges[m] {
        OnlyByNativeName(t, account, front, key, m);
      }
    }
  }

  /** Ingesting an aggregate without a canonical name leaves a row with its key behind, when none
      had it at the start. */
  lemma {:induction false} KeyComesBack(t: Store, account: string, aggs: seq<Aggregated>, j: nat)
    requires DistinctKeys(account, aggs) && j < |aggs| && aggs[j].canonical.None?
    requires !HasKey(t.charges, KeyOfAggregate(account, aggs[j]))
    ensures HasKey(UpsertAll(t, account, aggs).charges, KeyOfAggregate(account, aggs[j]))
  {
    var front, last := aggs[..|aggs| - 1], aggs[|aggs| - 1];
    var u := UpsertAll(t, account, front);
    var v := UpsertOne(u, account, last).charges;
    var key := KeyOfAggregate(account, aggs[j]);
    var found := Find(u.charges, KeyOfAggregate(account, last));
    if j < |front| {
      assert front[j] == aggs[j];
      KeyComesBack(t, account, front, j);
      var m :| 0 <= m < |u.charges| && KeyOfRow(u.charges[m]) == key;
      assert v[m] == u.charges[m];
    } else if found.Some? {
      OnlyByNativeName(t, account, front, key, found.value);
      assert KeyOfRow(v[found.value]) == key;
    } else {
      assert KeyOfRow(v[|u.charges|]) == key;
    }
  }

  /** Exactly when: an ingest whose lookups never raise is idle the second time if and only if
      each aggregate keeps its key on the store as it was before the first. */
  lemma SecondIngestIsIdleExactlyWhen(s: Store, account: string, aggs: seq<Aggregated>)
    requires UniqueKeys(s.charges) && DistinctKeys(account, aggs) && NeverAmbiguous(s, account, aggs)
    ensures var t := UpsertAll(s, account, aggs);
      UpsertAll(t, account, aggs) == t <==> AllKeepTheirKeys(s, account, aggs)
  {
    var t := UpsertAll(s, account, aggs);
    if AllKeepTheirKeys(s, account, aggs) {
      SecondIngestIsIdle(s, account, aggs);
    } else if EachTurnKeeps(s, account, aggs) {
      TurnsAreGuards(s, account, aggs);
      assert false;
    } else {
      var j := LostKey(s, account, aggs);
      KeyComesBack(t, account, aggs, j);
    }
  }

  /** What the aggregator returns always has distinct keys, so this holds for every file. */
  lemma AggregatorOutputIsDistinct(account: string, cs: seq<Charge>)
    ensures DistinctKeys(account, AggregatesOf(GroupsOf(cs)))
  {
    var aggs := AggregatesOf(GroupsOf(cs));
    forall i, j | 0 <= i < j < |aggs| ensures KeyOfAggregate(account, aggs[i]) != KeyOfAggregate(account, aggs[j]) {
      AggregatesHaveDistinctKeys(cs, i, j);
    }
  }

  /** Rows with other keys, and their tag rows, are untouched. */
  lemma {:induction false} OtherKeysAreUntouched(s: Store, account: string, aggs: seq<Aggregated>, k: nat)
    requires k < |s.charges| && forall i :: 0 <= i < |aggs| ==> KeyOfAggregate(account, aggs[i]) != KeyOfRow(s.charges[k])
    ensures var t := UpsertAll(s, account, aggs);
      k < |t.charges| && t.charges[k] == s.charges[k] && OfCharge(t.tagRows, k) == OfCharge(s.tagRows, k)
  {
    if aggs != [] {
      var front, last := aggs[..|aggs| - 1], aggs[|aggs| - 1];
      OtherKeysAreUntouched(s, account, front, k);
      var t := UpsertAll(s, account, front);
      var found := Find(t.charges, KeyOfAggregate(account, last));
      WrittenElsewhere(t.tagRows, if found.Some? then found.value else |t.charges|, last.perRowTags, last.perRowCosts, k);
    }
  }
}
