/** The focus_charges and focus_charge_tags tables: upsert by storage key, per-row tags and
    costs, and how they are read back. Sources:
    apps/api/src/constat_api/repositories/focus_charges.py and insights/runner.py. */
module FocusStorage {
  import opened Wrappers
  import opened Focus
  import opened FocusAggregator

  /** A row of focus_charges; its id is its position, as rows are never deleted. */
  datatype ChargeRow = ChargeRow(
    account: string,
    service: string,
    canonical: Option<string>,
    periodStart: int,
    periodEnd: int,
    cost: Cost,
    count: nat,
    tags: seq<Tags>,
    currency: string,
    labels: Labels)

  /** A row of focus_charge_tags, without its own id. */
  datatype TagRow = TagRow(charge: nat, rowIndex: nat, key: string, value: string, cost: Cost)

  datatype Store = Store(charges: seq<ChargeRow>, tagRows: set<TagRow>)

  const EMPTY := Store([], {})

  datatype StoreKey = StoreKey(account: string, bucket: Bucket)

  function KeyOfRow(r: ChargeRow): StoreKey {
    StoreKey(r.account, Bucket(Coalesced(r.canonical, r.service), r.periodStart, r.periodEnd))
  }

  function KeyOfAggregate(account: string, a: Aggregated): StoreKey { StoreKey(account, BucketOfAggregate(a)) }

  // ---------------------------------------------------------------- writing per-row tags

  function CostAt(costs: seq<Cost>, i: nat): Cost { if i < |costs| then costs[i] else ZERO }

  function RowsFor(id: nat, dicts: seq<Tags>, costs: seq<Cost>): set<TagRow> {
    set i: nat, k | i < |dicts| && k in dicts[i] :: TagRow(id, i, k, dicts[i][k], CostAt(costs, i))
  }

  function Others(tagRows: set<TagRow>, id: nat): set<TagRow> { set r | r in tagRows && r.charge != id }

  function OfCharge(tagRows: set<TagRow>, id: nat): set<TagRow> { set r | r in tagRows && r.charge == id }

  /** Nothing is touched for an empty list; otherwise the charge's rows are replaced. */
  function Written(tagRows: set<TagRow>, id: nat, dicts: seq<Tags>, costs: seq<Cost>): set<TagRow> {
    if dicts == [] then tagRows else Others(tagRows, id) + RowsFor(id, dicts, costs)
  }

  // ---------------------------------------------------------------- upsert

  /** An update overwrites every column except the account, the period and the native name. */
  function Updated(r: ChargeRow, a: Aggregated): ChargeRow {
    r.(canonical := a.canonical, cost := a.cost, count := a.count, tags := a.tags, currency := a.currency,
       labels := a.labels)
  }

  function Inserted(account: string, a: Aggregated): ChargeRow {
    ChargeRow(account, a.service, a.canonical, a.periodStart, a.periodEnd, a.cost, a.count, a.tags, a.currency, a.labels)
  }

  function Replaced(s: Store, k: nat, a: Aggregated): Store
    requires k < |s.charges|
  {
    Store(s.charges[k := Updated(s.charges[k], a)], Written(s.tagRows, k, a.perRowTags, a.perRowCosts))
  }

  function Added(s: Store, account: string, a: Aggregated): Store {
    Store(s.charges + [Inserted(account, a)], Written(s.tagRows, |s.charges|, a.perRowTags, a.perRowCosts))
  }

  ghost predicate UniqueKeys(charges: seq<ChargeRow>) {
    forall i, j :: 0 <= i < j < |charges| ==> KeyOfRow(charges[i]) != KeyOfRow(charges[j])
  }

  /** First matching row, or none. */
  function Find(charges: seq<ChargeRow>, key: StoreKey): (r: Option<nat>)
    ensures r.Some? ==> r.value < |charges| && KeyOfRow(charges[r.value]) == key
    ensures r.None? <==> forall k :: 0 <= k < |charges| ==> KeyOfRow(charges[k]) != key
  {
    if charges == [] then None
    else
      var front := Find(charges[..|charges| - 1], key);
      if front.Some? then front
      else if KeyOfRow(charges[|charges| - 1]) == key then Some(|charges| - 1)
      else None
  }

  function UpsertOne(s: Store, account: string, a: Aggregated): Store {
    var k := Find(s.charges, KeyOfAggregate(account, a));
    if k.Some? then Replaced(s, k.value, a) else Added(s, account, a)
  }

  function UpsertAll(s: Store, account: string, aggs: seq<Aggregated>): Store {
    if aggs == [] then s
    else UpsertOne(UpsertAll(s, account, aggs[..|aggs| - 1]), account, aggs[|aggs| - 1])
  }

  /** Two rows match: the lookup raises. */
  predicate Ambiguous(charges: seq<ChargeRow>, key: StoreKey) {
    exists i, j :: 0 <= i < j < |charges| && KeyOfRow(charges[i]) == key && KeyOfRow(charges[j]) == key
  }

  predicate NeverAmbiguous(s: Store, account: string, aggs: seq<Aggregated>) {
    aggs == [] ||
    (NeverAmbiguous(s, account, aggs[..|aggs| - 1]) &&
     !Ambiguous(UpsertAll(s, account, aggs[..|aggs| - 1]).charges, KeyOfAggregate(account, aggs[|aggs| - 1])))
  }

  function InsertedCount(s: Store, account: string, aggs: seq<Aggregated>): nat {
    if aggs == [] then 0
    else
      InsertedCount(s, account, aggs[..|aggs| - 1])
      + if Find(UpsertAll(s, account, aggs[..|aggs| - 1]).charges, KeyOfAggregate(account, aggs[|aggs| - 1])).None? then 1 else 0
  }

  // ---------------------------------------------------------------- the tables, in place

  class FocusStore {
    var charges: seq<ChargeRow>
    var tagRows: set<TagRow>

    function State(): Store
      reads this
    {
      Store(charges, tagRows)
    }

    constructor ()
      ensures State() == EMPTY
    {
      charges, tagRows := [], {};
    }

    /** One row per (input row, key); the keys of a dict come in any order. */
    method WriteDict(id: nat, i: nat, dicts: seq<Tags>, costs: seq<Cost>)
      requires i < |dicts|
      modifies `tagRows
      ensures tagRows == old(tagRows) + (set k | k in dicts[i] :: TagRow(id, i, k, dicts[i][k], CostAt(costs, i)))
    {
      var d := dicts[i];
      var todo := d.Keys;
      while todo != {}
        invariant todo <= d.Keys
        invariant tagRows == old(tagRows) + (set k | k in d && k !in todo :: TagRow(id, i, k, d[k], CostAt(costs, i)))
        decreases |todo|
      {
        var k :| k in todo;
        ghost var before := set x | x in d && x !in todo :: TagRow(id, i, x, d[x], CostAt(costs, i));
        tagRows := tagRows + {TagRow(id, i, k, d[k], CostAt(costs, i))};
        todo := todo - {k};
        ghost var after := set x | x in d && x !in todo :: TagRow(id, i, x, d[x], CostAt(costs, i));
        assert after == before + {TagRow(id, i, k, d[k], CostAt(costs, i))} by {
          assert k in d && k !in todo;
        }
      }
    }

    method WritePerRowTags(id: nat, dicts: seq<Tags>, costs: seq<Cost>)
      modifies `tagRows
      ensures tagRows == Written(old(tagRows), id, dicts, costs)
    {
      if dicts == [] {
        return;
      }
      tagRows := Others(tagRows, id);
      ghost var kept := tagRows;
      for i := 0 to |dicts|
        invariant tagRows == kept + RowsUpTo(id, dicts, costs, i)
      {
        WriteDict(id, i, dicts, costs);
        RowsUpToNext(id, dicts, costs, i);
      }
    }

    method Lookup(key: StoreKey) returns (found: Option<nat>, ambiguous: bool)
      ensures ambiguous <==> Ambiguous(charges, key)
      ensures !ambiguous ==> found == Find(charges, key)
    {
      found, ambiguous := None, false;
      for k := 0 to |charges|
        invariant !Ambiguous(charges[..k], key)
        invariant found == Find(charges[..k], key)
      {
        assert charges[..k + 1][..k] == charges[..k];
        if KeyOfRow(charges[k]) == key {
          if found.Some? {
            assert KeyOfRow(charges[found.value]) == key;
            return found, true;
          }
          found := Some(k);
        }
      }
      assert charges[..|charges|] == charges;
    }

    method UpsertRow(account: string, a: Aggregated) returns (r: Result<bool, string>)
      modifies this
      ensures r.Ok? <==> !Ambiguous(old(charges), KeyOfAggregate(account, a))
      ensures r.Ok? ==> State() == UpsertOne(old(State()), account, a)
      ensures r.Ok? ==> (r.value <==> Find(old(charges), KeyOfAggregate(account, a)).None?)
      ensures r.Err? ==> State() == old(State())
    {
      var found, ambiguous := Lookup(KeyOfAggregate(account, a));
      if ambiguous {
        return Err("multiple rows were found");
      }
      if found.Some? {
        charges := charges[found.value := Updated(charges[found.value], a)];
        WritePerRowTags(found.value, a.perRowTags, a.perRowCosts);
        return Ok(false);
      }
      charges := charges + [Inserted(account, a)];
      WritePerRowTags(|charges| - 1, a.perRowTags, a.perRowCosts);
      return Ok(true);
    }

    /** Inserts or updates every aggregate in turn; a key with two rows stops the ingest. */
    method UpsertAggregated(account: string, aggs: seq<Aggregated>) returns (r: Result<(nat, nat), string>)
      modifies this
      ensures r.Ok? <==> NeverAmbiguous(old(State()), account, aggs)
      ensures r.Ok? ==> State() == UpsertAll(old(State()), account, aggs)
      ensures r.Ok? ==> r.value.0 == InsertedCount(old(State()), account, aggs) && r.value.0 + r.value.1 == |aggs|
    {
      ghost var s := State();
      var inserted, updated := 0, 0;
      for i := 0 to |aggs|
        invariant NeverAmbiguous(s, account, aggs[..i])
        invariant State() == UpsertAll(s, account, aggs[..i])
        invariant inserted == InsertedCount(s, account, aggs[..i]) && inserted + updated == i
      {
        assert aggs[..i + 1][..i] == aggs[..i];
        var one := UpsertRow(account, aggs[i]);
        if one.Err? {
          StopsForGood(s, account, aggs, i);
          return Err(one.error);
        }
        if one.value { inserted := inserted + 1; } else { updated := updated + 1; }
      }
      assert aggs[..|aggs|] == aggs;
      return Ok((inserted, updated));
    }
  }

  function RowsUpTo(id: nat, dicts: seq<Tags>, costs: seq<Cost>, n: nat): set<TagRow>
    requires n <= |dicts|
  {
    set i: nat, k | i < n && k in dicts[i] :: TagRow(id, i, k, dicts[i][k], CostAt(costs, i))
  }

  lemma RowsUpToNext(id: nat, dicts: seq<Tags>, costs: seq<Cost>, n: nat)
    requires n < |dicts|
    ensures RowsUpTo(id, dicts, costs, n + 1)
      == RowsUpTo(id, dicts, costs, n) + (set k | k in dicts[n] :: TagRow(id, n, k, dicts[n][k], CostAt(costs, n)))
  {
    var one := set k | k in dicts[n] :: TagRow(id, n, k, dicts[n][k], CostAt(costs, n));
    forall r ensures r in RowsUpTo(id, dicts, costs, n + 1) <==> r in RowsUpTo(id, dicts, costs, n) + one {
      if r in RowsUpTo(id, dicts, costs, n + 1) {
        var i: nat, k :| i < n + 1 && k in dicts[i] && r == TagRow(id, i, k, dicts[i][k], CostAt(costs, i));
        if i == n { assert r in one; } else { assert r in RowsUpTo(id, dicts, costs, n); }
      }
    }
  }

  lemma {:induction false} StopsForGood(s: Store, account: string, aggs: seq<Aggregated>, i: nat)
    requires i < |aggs|
    requires Ambiguous(UpsertAll(s, account, aggs[..i]).charges, KeyOfAggregate(account, aggs[i]))
    ensures !NeverAmbiguous(s, account, aggs)
  {
    var front := aggs[..|aggs| - 1];
    if i < |aggs| - 1 {
      assert front[..i] == aggs[..i] && front[i] == aggs[i];
      StopsForGood(s, account, front, i);
    }
  }
}
